/** What eviction, the burst and the retry hint of the limiter mean over whole request sequences. */
module LimiterLaws {
  import opened Common
  import opened Limiter

  datatype Request = Request(key: Key, at: real)

  function Answers(c: Config, s: State, reqs: seq<Request>): (r: seq<Answer>)
    ensures |r| == |reqs|
    decreases |reqs|
  {
    if reqs == [] then []
    else
      var (next, answer) := Admit(c, s, reqs[0].key, reqs[0].at);
      [answer] + Answers(c, next, reqs[1..])
  }

  function Final(c: Config, s: State, reqs: seq<Request>): State
    decreases |reqs|
  {
    if reqs == [] then s else Final(c, Admit(c, s, reqs[0].key, reqs[0].at).0, reqs[1..])
  }

  /** The clock never goes back, from `start` on. */
  predicate SortedFrom(reqs: seq<Request>, start: real) {
    reqs != [] ==> reqs[0].at >= start && SortedFrom(reqs[1..], reqs[0].at)
  }

  predicate Until(reqs: seq<Request>, end: real) {
    forall i :: 0 <= i < |reqs| ==> reqs[i].at <= end
  }

  /** Requests with a forward clock in this interval. */
  predicate Timely(reqs: seq<Request>, start: real, end: real) {
    SortedFrom(reqs, start) && Until(reqs, end) && start <= end
  }

  /** The limiter that never evicts. */
  function Keeping(c: Config): Config {
    c.(ttl := 0.0)
  }

  predicate Usable(c: Config) {
    c.rate > 0.0 && c.burst >= 1.0
  }

  // ----- arithmetic

  lemma MulMono(x: real, y: real, r: real)
    requires x <= y && r >= 0.0
    ensures x * r <= y * r
  {
  }

  lemma MulPositive(x: real, r: real)
    requires x >= 0.0 && r >= 0.0
    ensures x * r >= 0.0
  {
  }

  lemma MulSum(x: real, y: real, r: real)
    ensures (x + y) * r == x * r + y * r
  {
  }

  lemma MulStrict(x: real, y: real, r: real)
    requires x < y && r > 0.0
    ensures x * r < y * r
  {
  }

  lemma QuotientTimes(x: real, r: real)
    requires r > 0.0
    ensures (x / r) * r == x
  {
  }

  lemma QuotientBelow(x: real, r: real, n: real)
    requires r > 0.0
    ensures x / r <= n <==> x <= n * r
  {
    QuotientTimes(x, r);
    ProductBelow(x / r, r, n);
  }

  lemma ProductBelow(q: real, r: real, n: real)
    requires r > 0.0
    ensures q <= n <==> q * r <= n * r
  {
    if q <= n {
      MulMono(q, n, r);
    } else {
      MulStrict(n, q, r);
    }
  }

  /** A capped level grows by no more than what is earned. */
  lemma CappedGrowth(level: real, idle: real, more: real, r: real, cap: real)
    requires r > 0.0 && more >= 0.0
    ensures Min(cap, level + (idle + more) * r) <= Min(cap, level + idle * r) + more * r
  {
    MulSum(idle, more, r);
    MulPositive(more, r);
  }

  /** A level that has a floor keeps the floor that grows with it, up to one token. */
  lemma FloorGrowth(level: real, floor: real, waited: real, more: real, r: real, cap: real)
    requires r > 0.0 && more >= 0.0 && cap >= 1.0 && level >= Min(1.0, floor + waited * r)
    ensures Min(cap, level + more * r) >= Min(1.0, floor + (waited + more) * r)
  {
    MulSum(waited, more, r);
    MulPositive(more, r);
  }

  /** Some tokens and what is earned in so many seconds. */
  function Earned(c: Config, tokens: real, seconds: real): real {
    tokens + seconds * c.rate
  }

  // ----- eviction

  /** A bucket filled within its capacity, last touched no later than now. */
  predicate Sane(c: Config, b: Level, now: real) {
    0.0 <= b.tokens <= c.burst && b.last <= now
  }

  /** The evicting state s lacks only buckets of the keeping state p that have been idle for a ttl. */
  ghost predicate Alike(c: Config, s: State, p: State, now: real) {
    forall k {:trigger AlikeAt(c, s, p, now, k)} :: AlikeAt(c, s, p, now, k)
  }

  ghost predicate AlikeAt(c: Config, s: State, p: State, now: real, k: Key) {
    && (k in s.buckets ==> k in p.buckets && s.buckets[k] == p.buckets[k])
    && (k in p.buckets ==> Sane(c, p.buckets[k], now))
    && (k in p.buckets && k !in s.buckets ==> IdleAt(c, p.buckets[k], now))
  }

  lemma RefillIsSane(c: Config, b: Level, now: real)
    requires Usable(c) && Sane(c, b, now)
    ensures 0.0 <= Refilled(c, b, now) <= c.burst
  {
    var elapsed, rate := now - b.last, c.rate;
    MulPositive(elapsed, rate);
    var gain := elapsed * rate;
    assert Refilled(c, b, now) == Min(c.burst, b.tokens + gain);
  }

  lemma FullAfterIdle(c: Config, b: Level, now: real)
    requires Usable(c) && c.rate * c.ttl >= c.burst && Sane(c, b, now) && IdleAt(c, b, now)
    ensures Refilled(c, b, now) == c.burst
  {
    MulMono(c.ttl, now - b.last, c.rate);
    assert c.ttl * c.rate == c.rate * c.ttl;
  }

  lemma SweepKeepsAlike(c: Config, s: State, p: State, before: real, now: real)
    requires Alike(c, s, p, before) && before <= now
    ensures Alike(c, Sweep(c, s, now), p, now)
  {
    forall k ensures AlikeAt(c, Sweep(c, s, now), p, now, k) {
      assert AlikeAt(c, s, p, before, k);
    }
  }

  lemma SameTokens(c: Config, s: State, p: State, key: Key, now: real)
    requires Usable(c) && c.rate * c.ttl >= c.burst && Alike(c, s, p, now)
    ensures Tokens(c, s.buckets, key, now) == Tokens(Keeping(c), p.buckets, key, now)
    ensures 0.0 <= Tokens(c, s.buckets, key, now) <= c.burst
  {
    assert AlikeAt(c, s, p, now, key);
    if key in p.buckets {
      RefillIsSane(c, p.buckets[key], now);
      if key !in s.buckets {
        FullAfterIdle(c, p.buckets[key], now);
      }
    }
  }

  lemma AdmitKeepsAlike(c: Config, s: State, p: State, key: Key, before: real, now: real)
    requires Usable(c) && c.rate * c.ttl >= c.burst && Alike(c, s, p, before) && before <= now
    ensures Admit(c, s, key, now).1 == Admit(Keeping(c), p, key, now).1
    ensures Alike(c, Admit(c, s, key, now).0, Admit(Keeping(c), p, key, now).0, now)
  {
    var swept := Sweep(c, s, now);
    SweepKeepsAlike(c, s, p, before, now);
    SameTokens(c, swept, p, key, now);
    var s', p' := Admit(c, s, key, now).0, Admit(Keeping(c), p, key, now).0;
    forall k ensures AlikeAt(c, s', p', now, k) {
      assert AlikeAt(c, swept, p, now, k);
    }
  }

  lemma {:induction false} AlikeAnswers(c: Config, s: State, p: State, reqs: seq<Request>, start: real)
    requires Usable(c) && c.rate * c.ttl >= c.burst && Alike(c, s, p, start) && SortedFrom(reqs, start)
    ensures Answers(c, s, reqs) == Answers(Keeping(c), p, reqs)
    decreases |reqs|
  {
    if reqs != [] {
      var k, now := reqs[0].key, reqs[0].at;
      AdmitKeepsAlike(c, s, p, k, start, now);
      AlikeAnswers(c, Admit(c, s, k, now).0, Admit(Keeping(c), p, k, now).0, reqs[1..], now);
    }
  }

  lemma EmptyAlike(c: Config, now: real)
    ensures Alike(c, EMPTY, EMPTY, now)
  {
    forall k ensures AlikeAt(c, EMPTY, EMPTY, now, k) {
    }
  }

  /** When a bucket refills within a ttl, nobody can tell that idle buckets are evicted. */
  lemma EvictionIsInvisible(c: Config, reqs: seq<Request>, start: real)
    requires Usable(c) && c.rate * c.ttl >= c.burst && SortedFrom(reqs, start)
    ensures Answers(c, EMPTY, reqs) == Answers(Keeping(c), EMPTY, reqs)
  {
    EmptyAlike(c, start);
    AlikeAnswers(c, EMPTY, EMPTY, reqs, start);
  }

  // ----- when it is visible

  /** n requests for one key at one instant. */
  function Volley(key: Key, n: nat, at: real): seq<Request> {
    if n == 0 then [] else [Request(key, at)] + Volley(key, n - 1, at)
  }

  predicate AllOk(answers: seq<Answer>) {
    forall i :: 0 <= i < |answers| ==> answers[i].ok
  }

  /** A limiter that knows key 0 only and does not sweep again at this instant. */
  function Lone(tokens: real, at: real, swept: Option<real>): State {
    State(map[0 := Level(tokens, at)], swept)
  }

  predicate Rested(c: Config, swept: Option<real>, at: real) {
    c.ttl <= 0.0 || swept == Some(at)
  }

  lemma LoneStep(c: Config, tokens: real, at: real, swept: Option<real>)
    requires Usable(c) && 0.0 <= tokens <= c.burst && Rested(c, swept, at)
    ensures Admit(c, Lone(tokens, at, swept), 0, at) == (Lone(Left(tokens), at, swept), Judge(c, tokens))
  {
    var s := Lone(tokens, at, swept);
    assert Sweep(c, s, at) == s;
    assert Tokens(c, s.buckets, 0, at) == tokens;
    assert s.buckets[0 := Level(Left(tokens), at)] == map[0 := Level(Left(tokens), at)];
  }

  // ----- the configured burst and rate

  /** A volley is answered with yes throughout exactly when the key's tokens suffice, whatever other keys hold. */
  lemma {:induction false} BurstNeedsTokens(c: Config, s: State, key: Key, at: real, n: nat)
    requires Usable(c) && !SweepDue(c, s, at) && 0.0 <= Tokens(c, s.buckets, key, at) <= c.burst
    ensures var tokens := Tokens(c, s.buckets, key, at);
      && (AllOk(Answers(c, s, Volley(key, n, at))) <==> tokens >= n as real)
      && (n > 0 && tokens >= n as real ==>
            Final(c, s, Volley(key, n, at)) == State(s.buckets[key := Level(tokens - n as real, at)], s.lastSweep))
    decreases n
  {
    if n > 0 {
      var tokens := Tokens(c, s.buckets, key, at);
      var next := State(s.buckets[key := Level(Left(tokens), at)], s.lastSweep);
      assert Admit(c, s, key, at) == (next, Judge(c, tokens));
      assert Tokens(c, next.buckets, key, at) == Left(tokens);
      assert Volley(key, n, at)[1..] == Volley(key, n - 1, at);
      BurstNeedsTokens(c, next, key, at, n - 1);
      OkFirst(Judge(c, tokens), Answers(c, next, Volley(key, n - 1, at)));
      assert s.buckets[key := Level(Left(tokens), at)][key := Level(tokens - n as real, at)] ==
             s.buckets[key := Level(tokens - n as real, at)];
    }
  }

  lemma OkFirst(first: Answer, rest: seq<Answer>)
    ensures AllOk([first] + rest) <==> first.ok && AllOk(rest)
  {
    var all := [first] + rest;
    assert all[0] == first && forall i :: 0 <= i < |rest| ==> all[i + 1] == rest[i];
  }

  /** Sweeping first changes nothing for a volley that starts by sweeping. */
  lemma SweptVolley(c: Config, s: State, key: Key, n: nat, at: real)
    requires c.rate > 0.0
    ensures !SweepDue(c, Sweep(c, s, at), at)
    ensures n > 0 ==> Answers(c, Sweep(c, s, at), Volley(key, n, at)) == Answers(c, s, Volley(key, n, at))
    ensures n > 0 ==> Final(c, Sweep(c, s, at), Volley(key, n, at)) == Final(c, s, Volley(key, n, at))
  {
    assert Admit(c, Sweep(c, s, at), key, at) == Admit(c, s, key, at);
  }

  /** A new limiter admits as many simultaneous requests of a key as its configured burst says, and no more. */
  lemma BurstIsConfigured(rate: real, burst: int, ttl: real, key: Key, at: real, n: nat)
    requires rate > 0.0
    ensures AllOk(Answers(NewConfig(rate, burst, ttl), EMPTY, Volley(key, n, at))) <==>
      n <= if burst < 1 then 1 else burst
  {
    var c := NewConfig(rate, burst, ttl);
    SweptVolley(c, EMPTY, key, n, at);
    BurstNeedsTokens(c, Sweep(c, EMPTY, at), key, at, n);
  }

  /**
   Some seconds after a key has spent its burst it is admitted as often as the rate has
   earned it, up to the burst; if a ttl has passed it has been forgotten and starts anew.
   */
  lemma RefillIsConfigured(rate: real, burst: int, ttl: real, key: Key, at: real, seconds: real, n: nat)
    requires rate > 0.0 && seconds >= 0.0
    ensures var c, full := NewConfig(rate, burst, ttl), if burst < 1 then 1 else burst;
      AllOk(Answers(c, Final(c, EMPTY, Volley(key, full, at)), Volley(key, n, at + seconds))) <==>
        EarnedAgain(full, rate, ttl, seconds, n)
  {
    var c, full := NewConfig(rate, burst, ttl), if burst < 1 then 1 else burst;
    SpendAll(c, key, at, full);
    AfterSpending(c, Final(c, EMPTY, Volley(key, full, at)), key, at, seconds, full, n);
  }

  /** A key that has spent its burst may be admitted n times so many seconds later. */
  predicate EarnedAgain(full: nat, rate: real, ttl: real, seconds: real, n: nat) {
    n <= full && (n as real <= seconds * rate || (ttl > 0.0 && seconds >= ttl))
  }

  /** The limiter that has spent the whole burst of its only key. */
  predicate Spent(c: Config, s: State, key: Key, at: real) {
    s.buckets == map[key := Level(0.0, at)] && s.lastSweep == if c.ttl > 0.0 then Some(at) else None
  }

  lemma SpendAll(c: Config, key: Key, at: real, full: nat)
    requires Usable(c) && c.burst == full as real
    ensures Spent(c, Final(c, EMPTY, Volley(key, full, at)), key, at)
  {
    var swept := Sweep(c, EMPTY, at);
    assert swept.buckets == map[];
    SweptVolley(c, EMPTY, key, full, at);
    BurstNeedsTokens(c, swept, key, at, full);
  }

  lemma AfterSpending(c: Config, spent: State, key: Key, at: real, seconds: real, full: nat, n: nat)
    requires Usable(c) && c.burst == full as real && seconds >= 0.0 && Spent(c, spent, key, at)
    ensures AllOk(Answers(c, spent, Volley(key, n, at + seconds))) <==> EarnedAgain(full, c.rate, c.ttl, seconds, n)
  {
    var later := at + seconds;
    var swept := Sweep(c, spent, later);
    var tokens := Tokens(c, swept.buckets, key, later);
    assert tokens == RefilledAfter(full, c.rate, c.ttl, seconds) && 0.0 <= tokens <= c.burst by {
      SpentTokens(c, spent, key, at, seconds, full);
    }
    TokensSuffice(full, c.rate, c.ttl, seconds, n);
    NextVolley(c, spent, key, later, n);
  }

  lemma NextVolley(c: Config, s: State, key: Key, at: real, n: nat)
    requires Usable(c) && 0.0 <= Tokens(c, Sweep(c, s, at).buckets, key, at) <= c.burst
    ensures AllOk(Answers(c, s, Volley(key, n, at))) <==> Tokens(c, Sweep(c, s, at).buckets, key, at) >= n as real
  {
    SweptVolley(c, s, key, n, at);
    BurstNeedsTokens(c, Sweep(c, s, at), key, at, n);
  }

  function RefilledAfter(full: nat, rate: real, ttl: real, seconds: real): real {
    if ttl > 0.0 && seconds >= ttl then full as real else Min(full as real, seconds * rate)
  }

  lemma TokensSuffice(full: nat, rate: real, ttl: real, seconds: real, n: nat)
    ensures RefilledAfter(full, rate, ttl, seconds) >= n as real <==>
      n <= full && (n as real <= seconds * rate || (ttl > 0.0 && seconds >= ttl))
  {
    var earned := seconds * rate;
  }

  lemma SpentTokens(c: Config, spent: State, key: Key, at: real, seconds: real, full: nat)
    requires Usable(c) && seconds >= 0.0 && Spent(c, spent, key, at)
    ensures var tokens := Tokens(c, Sweep(c, spent, at + seconds).buckets, key, at + seconds);
      && 0.0 <= tokens <= c.burst
      && (c.burst == full as real ==> tokens == RefilledAfter(full, c.rate, c.ttl, seconds))
  {
    var later, b := at + seconds, Level(0.0, at);
    MulPositive(seconds, c.rate);
    assert later - b.last == seconds;
    assert Refilled(c, b, later) == Min(c.burst, seconds * c.rate);
    var swept := Sweep(c, spent, later).buckets;
    assert swept == if c.ttl > 0.0 && seconds >= c.ttl then map[] else map[key := b];
  }

  /** Every request is admitted, at once and for ever, exactly when the rate is not positive. */
  lemma UnlimitedExactly(rate: real, burst: int, ttl: real)
    ensures var c := NewConfig(rate, burst, ttl);
      && (rate <= 0.0 <==> forall reqs :: AllOk(Answers(c, EMPTY, reqs)))
      && (rate <= 0.0 ==> forall s, reqs, i :: 0 <= i < |reqs| ==> Answers(c, s, reqs)[i] == Answer(true, 0))
  {
    var c := NewConfig(rate, burst, ttl);
    if rate <= 0.0 {
      forall s, reqs, i | 0 <= i < |reqs| ensures Answers(c, s, reqs)[i] == Answer(true, 0) {
        NothingLimited(c, s, reqs, i);
      }
    } else {
      var more := (if burst < 1 then 1 else burst) + 1;
      BurstIsConfigured(rate, burst, ttl, 0, 0.0, more);
      assert !AllOk(Answers(c, EMPTY, Volley(0, more, 0.0)));
    }
  }

  lemma {:induction false} NothingLimited(c: Config, s: State, reqs: seq<Request>, i: nat)
    requires c.rate <= 0.0 && i < |reqs|
    ensures Answers(c, s, reqs)[i] == Answer(true, 0)
    decreases |reqs|
  {
    if i > 0 {
      NothingLimited(c, s, reqs[1..], i - 1);
    }
  }

  // ----- two bursts

  lemma {:induction false} VolleyIsSorted(n: nat, at: real)
    ensures SortedFrom(Volley(0, n, at), at)
  {
    if n > 0 {
      VolleyIsSorted(n - 1, at);
    }
  }

  lemma {:induction false} RunAppend(c: Config, s: State, a: seq<Request>, b: seq<Request>)
    ensures Answers(c, s, a + b) == Answers(c, s, a) + Answers(c, Final(c, s, a), b)
    decreases |a|
  {
    if a == [] {
      assert a + b == b;
    } else {
      assert (a + b)[0] == a[0] && (a + b)[1..] == a[1..] + b;
      RunAppend(c, Admit(c, s, a[0].key, a[0].at).0, a[1..], b);
    }
  }

  lemma {:induction false} SortedAppend(a: seq<Request>, b: seq<Request>, start: real, mid: real)
    requires SortedFrom(a, start) && Until(a, mid) && SortedFrom(b, mid) && start <= mid
    ensures SortedFrom(a + b, start)
    decreases |a|
  {
    if a == [] {
      assert a + b == b;
    } else {
      assert (a + b)[0] == a[0] && (a + b)[1..] == a[1..] + b;
      assert a[0].at <= mid;
      SortedAppend(a[1..], b, a[0].at, mid);
    }
  }

  lemma VolleyFrom(c: Config, s: State, at: real, tokens: real, swept: Option<real>, n: nat)
    requires Usable(c) && s.buckets.Keys <= {0} && 0.0 <= tokens <= c.burst && Rested(c, swept, at) && n > 0
    requires Sweep(c, s, at).lastSweep == swept && Tokens(c, Sweep(c, s, at).buckets, 0, at) == tokens
    ensures AllOk(Answers(c, s, Volley(0, n, at))) <==> tokens >= n as real
    ensures tokens >= n as real ==> Final(c, s, Volley(0, n, at)) == Lone(tokens - n as real, at, swept)
  {
    var b := Sweep(c, s, at).buckets;
    SweptVolley(c, s, 0, n, at);
    BurstNeedsTokens(c, Sweep(c, s, at), 0, at, n);
    assert b[0 := Level(tokens - n as real, at)] == map[0 := Level(tokens - n as real, at)];
  }

  ghost predicate Invisible(c: Config, reqs: seq<Request>) {
    Answers(c, EMPTY, reqs) == Answers(Keeping(c), EMPTY, reqs)
  }

  ghost predicate NeverVisible(c: Config) {
    forall reqs, start :: SortedFrom(reqs, start) ==> Invisible(c, reqs)
  }

  lemma VolleyEndsBy(n: nat, at: real)
    ensures Until(Volley(0, n, at), at)
  {
  }

  lemma TwoVolleysEvicting(c: Config, n: nat)
    requires Usable(c) && c.burst == n as real && c.ttl > 0.0
    ensures Final(c, EMPTY, Volley(0, n, 0.0)) == Lone(0.0, 0.0, Some(0.0))
    ensures AllOk(Answers(c, Lone(0.0, 0.0, Some(0.0)), Volley(0, n, c.ttl)))
  {
    VolleyFrom(c, EMPTY, 0.0, c.burst, Some(0.0), n);
    var s := Lone(0.0, 0.0, Some(0.0));
    assert IdleAt(c, s.buckets[0], c.ttl) && Sweep(c, s, c.ttl).buckets == map[];
    VolleyFrom(c, s, c.ttl, c.burst, Some(c.ttl), n);
  }

  lemma TwoVolleysKeeping(c: Config, n: nat)
    requires Usable(c) && c.burst == n as real && c.ttl > 0.0 && c.rate * c.ttl < c.burst
    ensures Final(Keeping(c), EMPTY, Volley(0, n, 0.0)) == Lone(0.0, 0.0, None)
    ensures !AllOk(Answers(Keeping(c), Lone(0.0, 0.0, None), Volley(0, n, c.ttl)))
  {
    VolleyFrom(Keeping(c), EMPTY, 0.0, c.burst, None, n);
    MulPositive(c.ttl, c.rate);
    assert (c.ttl - 0.0) * c.rate == c.rate * c.ttl;
    VolleyFrom(Keeping(c), Lone(0.0, 0.0, None), c.ttl, c.rate * c.ttl, None, n);
  }

  lemma SortedFromEarlier(reqs: seq<Request>, earlier: real, start: real)
    requires SortedFrom(reqs, start) && earlier <= start
    ensures SortedFrom(reqs, earlier)
  {
  }

  /** Two bursts, one ttl apart. */
  function Twice(c: Config, n: nat): seq<Request> {
    Volley(0, n, 0.0) + Volley(0, n, c.ttl)
  }

  lemma TwiceIsTimely(c: Config, n: nat)
    requires c.ttl > 0.0
    ensures Timely(Twice(c, n), 0.0, c.ttl)
  {
    VolleyIsSorted(n, 0.0);
    VolleyIsSorted(n, c.ttl);
    SortedFromEarlier(Volley(0, n, c.ttl), 0.0, c.ttl);
    VolleyEndsBy(n, 0.0);
    VolleyEndsBy(n, c.ttl);
    SortedAppend(Volley(0, n, 0.0), Volley(0, n, c.ttl), 0.0, 0.0);
  }

  /** A burst spent at once and asked for again a ttl later shows the eviction. */
  lemma EvictionCanShow(c: Config, n: nat)
    requires Usable(c) && c.burst == n as real && c.ttl > 0.0 && c.rate * c.ttl < c.burst
    ensures SortedFrom(Twice(c, n), 0.0) && !Invisible(c, Twice(c, n))
  {
    var a, b := Volley(0, n, 0.0), Volley(0, n, c.ttl);
    TwiceIsTimely(c, n);
    TwoVolleysEvicting(c, n);
    TwoVolleysKeeping(c, n);
    RunAppend(c, EMPTY, a, b);
    RunAppend(Keeping(c), EMPTY, a, b);
    var evicting, keeping := Answers(c, EMPTY, a + b), Answers(Keeping(c), EMPTY, a + b);
    assert evicting[|a|..] == Answers(c, Final(c, EMPTY, a), b);
    assert keeping[|a|..] == Answers(Keeping(c), Final(Keeping(c), EMPTY, a), b);
  }

  lemma {:induction false} NeverSweeping(c: Config, s: State, reqs: seq<Request>)
    requires c.rate <= 0.0 || c.ttl <= 0.0
    ensures Answers(c, s, reqs) == Answers(Keeping(c), s, reqs)
    decreases |reqs|
  {
    if reqs != [] {
      assert Admit(c, s, reqs[0].key, reqs[0].at) == Admit(Keeping(c), s, reqs[0].key, reqs[0].at);
      NeverSweeping(c, Admit(c, s, reqs[0].key, reqs[0].at).0, reqs[1..]);
    }
  }

  /**
   Evicting idle buckets is invisible to every caller with a forward clock exactly when
   a bucket refills within a ttl (or nothing is limited, or nothing is ever evicted).
   */
  lemma EvictionInvisibleExactly(rate: real, burst: int, ttl: real)
    ensures var c := NewConfig(rate, burst, ttl);
      NeverVisible(c) <==> (rate <= 0.0 || ttl <= 0.0 || rate * ttl >= (if burst < 1 then 1 else burst) as real)
  {
    var c := NewConfig(rate, burst, ttl);
    if rate <= 0.0 || ttl <= 0.0 {
      forall reqs ensures Invisible(c, reqs) {
        NeverSweeping(c, EMPTY, reqs);
      }
    } else if rate * ttl >= c.burst {
      forall reqs, start | SortedFrom(reqs, start) ensures Invisible(c, reqs) {
        EvictionIsInvisible(c, reqs, start);
      }
    } else {
      var n := if burst < 1 then 1 else burst;
      EvictionCanShow(c, n);
      assert SortedFrom(Twice(c, n), 0.0) && !Invisible(c, Twice(c, n));
    }
  }

  // ----- the burst bound

  /** How many requests for a key were let through. */
  function Admitted(answers: seq<Answer>, reqs: seq<Request>, key: Key): nat
    requires |answers| == |reqs|
  {
    if reqs == [] then 0
    else (if reqs[0].key == key && answers[0].ok then 1 else 0) + Admitted(answers[1..], reqs[1..], key)
  }

  ghost predicate AllSane(c: Config, s: State, now: real) {
    forall k {:trigger s.buckets[k]} :: k in s.buckets ==> Sane(c, s.buckets[k], now)
  }

  /** Every state a limiter can reach has sane buckets. */
  lemma {:induction false} ReachableIsSane(c: Config, s: State, reqs: seq<Request>, start: real, end: real)
    requires Usable(c) && AllSane(c, s, start) && SortedFrom(reqs, start) && Until(reqs, end) && start <= end
    ensures AllSane(c, Final(c, s, reqs), end)
    decreases |reqs|
  {
    if reqs != [] {
      var key, now := reqs[0].key, reqs[0].at;
      if key in s.buckets {
        RefillIsSane(c, s.buckets[key], now);
      }
      ReachableIsSane(c, Admit(c, s, key, now).0, reqs[1..], now, end);
    }
  }

  /** In particular every state it can be in at this time. */
  lemma AlwaysSane(c: Config, reqs: seq<Request>, start: real, now: real)
    requires Usable(c) && Timely(reqs, start, now)
    ensures AllSane(c, Final(c, EMPTY, reqs), now)
  {
    ReachableIsSane(c, EMPTY, reqs, start, now);
  }

  /** Tokens grow at most at the rate. */
  lemma TokensGrow(c: Config, buckets: map<Key, Level>, key: Key, now: real, later: real)
    requires Usable(c) && now <= later
    ensures Tokens(c, buckets, key, later) <= Earned(c, Tokens(c, buckets, key, now), later - now)
  {
    if key in buckets {
      var b := buckets[key];
      var idle, more := now - b.last, later - now;
      CappedGrowth(b.tokens, idle, more, c.rate, c.burst);
      assert later - b.last == idle + more;
    } else {
      MulPositive(later - now, c.rate);
    }
  }

  lemma KeepingStep(c: Config, s: State, key: Key, start: real, now: real, other: Key)
    requires Usable(c) && c.ttl <= 0.0 && AllSane(c, s, start) && start <= now
    ensures AllSane(c, Admit(c, s, key, now).0, now)
    ensures Tokens(c, Admit(c, s, key, now).0.buckets, other, now) <= Tokens(c, s.buckets, other, now)
    ensures key == other && Admit(c, s, key, now).1.ok ==>
      Tokens(c, Admit(c, s, key, now).0.buckets, other, now) <= Tokens(c, s.buckets, other, now) - 1.0
  {
    var tokens := Tokens(c, s.buckets, key, now);
    if key in s.buckets {
      RefillIsSane(c, s.buckets[key], now);
    }
    var next := Admit(c, s, key, now).0;
    assert next.buckets == s.buckets[key := Level(Left(tokens), now)];
    assert Refilled(c, next.buckets[key], now) == Left(tokens);
  }

  lemma EarnedAtLeast(c: Config, tokens: real, seconds: real)
    requires Usable(c) && seconds >= 0.0
    ensures Earned(c, tokens, seconds) >= tokens
  {
    MulPositive(seconds, c.rate);
  }

  /** In the never-evicting limiter, admissions are paid by tokens held or earned. */
  lemma {:induction false} AdmissionsArePaid(c: Config, s: State, reqs: seq<Request>, key: Key, start: real, end: real)
    requires Usable(c) && c.ttl <= 0.0 && AllSane(c, s, start) && SortedFrom(reqs, start) && Until(reqs, end)
    requires start <= end
    ensures Admitted(Answers(c, s, reqs), reqs, key) as real <= Earned(c, Tokens(c, s.buckets, key, start), end - start)
    decreases |reqs|
  {
    if reqs == [] {
      EarnedAtLeast(c, Tokens(c, s.buckets, key, start), end - start);
      if key in s.buckets {
        RefillIsSane(c, s.buckets[key], start);
      }
    } else {
      var now := reqs[0].at;
      var (next, answer) := Admit(c, s, reqs[0].key, now);
      var answers := Answers(c, s, reqs);
      assert answers[0] == answer && answers[1..] == Answers(c, next, reqs[1..]);
      KeepingStep(c, s, reqs[0].key, start, now, key);
      TokensGrow(c, s.buckets, key, start, now);
      AdmissionsArePaid(c, next, reqs[1..], key, now, end);
      var one := if reqs[0].key == key && answer.ok then 1 else 0;
      PayOnce(c, Tokens(c, s.buckets, key, start), Tokens(c, s.buckets, key, now), Tokens(c, next.buckets, key, now),
              start, now, end, one, Admitted(Answers(c, next, reqs[1..]), reqs[1..], key));
    }
  }

  lemma PayOnce(c: Config, before: real, refilled: real, after: real, start: real, now: real, end: real,
                one: nat, rest: nat)
    requires refilled <= Earned(c, before, now - start) && after + one as real <= refilled
    requires rest as real <= Earned(c, after, end - now)
    ensures (one + rest) as real <= Earned(c, before, end - start)
  {
    MulSum(now - start, end - now, c.rate);
    assert (now - start) + (end - now) == end - start;
  }

  lemma {:induction false} AlikeAfter(c: Config, s: State, p: State, reqs: seq<Request>, start: real, end: real)
    requires Usable(c) && c.rate * c.ttl >= c.burst && Alike(c, s, p, start)
    requires SortedFrom(reqs, start) && Until(reqs, end) && start <= end
    ensures Alike(c, Final(c, s, reqs), Final(Keeping(c), p, reqs), end)
    decreases |reqs|
  {
    if reqs == [] {
      forall k ensures AlikeAt(c, s, p, end, k) {
        assert AlikeAt(c, s, p, start, k);
      }
    } else {
      var k, now := reqs[0].key, reqs[0].at;
      AdmitKeepsAlike(c, s, p, k, start, now);
      AlikeAfter(c, Admit(c, s, k, now).0, Admit(Keeping(c), p, k, now).0, reqs[1..], now, end);
    }
  }

  /** The most a key may be admitted within so many seconds. */
  function Allowance(c: Config, seconds: real): real {
    c.burst + seconds * c.rate
  }

  /** In any interval [from, to] a key gets at most the burst plus the rate times its length. */
  ghost predicate Bounded(c: Config, before: seq<Request>, during: seq<Request>, key: Key, from: real, to: real) {
    Admitted(Answers(c, Final(c, EMPTY, before), during), during, key) as real <= Allowance(c, to - from)
  }

  /** Whatever happened before, when a bucket refills within a ttl or nothing is ever evicted. */
  lemma IntervalBound(c: Config, before: seq<Request>, during: seq<Request>, key: Key, start: real, from: real,
                      to: real)
    requires Usable(c) && (c.ttl <= 0.0 || c.rate * c.ttl >= c.burst)
    requires Timely(before, start, from) && Timely(during, from, to)
    ensures Bounded(c, before, during, key, from, to)
  {
    if c.ttl <= 0.0 {
      AlwaysSane(c, before, start, from);
      KeepingBound(c, Final(c, EMPTY, before), during, key, from, to);
    } else {
      EmptyAlike(c, start);
      AlikeAfter(c, EMPTY, EMPTY, before, start, from);
      AlikeBound(c, Final(c, EMPTY, before), Final(Keeping(c), EMPTY, before), during, key, from, to);
    }
  }

  ghost predicate AlwaysBounded(c: Config) {
    forall before, during, key, start, from, to :: Timely(before, start, from) && Timely(during, from, to) ==>
      Bounded(c, before, during, key, from, to)
  }

  lemma {:induction false} AdmittedAll(answers: seq<Answer>, reqs: seq<Request>, key: Key)
    requires |answers| == |reqs| && AllOk(answers) && forall i :: 0 <= i < |reqs| ==> reqs[i].key == key
    ensures Admitted(answers, reqs, key) == |reqs|
    decreases |reqs|
  {
    if reqs != [] {
      assert answers[0].ok && AllOk(answers[1..]);
      AdmittedAll(answers[1..], reqs[1..], key);
    }
  }

  lemma {:induction false} VolleyShape(n: nat, at: real)
    ensures |Volley(0, n, at)| == n && forall i :: 0 <= i < n ==> Volley(0, n, at)[i] == Request(0, at)
  {
    if n > 0 {
      VolleyShape(n - 1, at);
    }
  }

  lemma TwiceIsAdmitted(c: Config, n: nat)
    requires Usable(c) && c.burst == n as real && c.ttl > 0.0
    ensures Timely(Twice(c, n), 0.0, c.ttl) && Admitted(Answers(c, EMPTY, Twice(c, n)), Twice(c, n), 0) == 2 * n
  {
    var a, b := Volley(0, n, 0.0), Volley(0, n, c.ttl);
    TwiceIsTimely(c, n);
    TwoVolleysEvicting(c, n);
    assert AllOk(Answers(c, EMPTY, a)) by { VolleyFrom(c, EMPTY, 0.0, c.burst, Some(0.0), n); }
    RunAppend(c, EMPTY, a, b);
    VolleyShape(n, 0.0);
    VolleyShape(n, c.ttl);
    AllOkAppend(Answers(c, EMPTY, a), Answers(c, Final(c, EMPTY, a), b));
    AdmittedAll(Answers(c, EMPTY, a + b), a + b, 0);
  }

  lemma AllOkAppend(a: seq<Answer>, b: seq<Answer>)
    requires AllOk(a) && AllOk(b)
    ensures AllOk(a + b)
  {
  }

  /** And only then: otherwise two bursts one ttl apart exceed what the ttl allows. */
  lemma IntervalBoundExactly(rate: real, burst: int, ttl: real)
    requires rate > 0.0
    ensures AlwaysBounded(NewConfig(rate, burst, ttl)) <==>
      ttl <= 0.0 || rate * ttl >= (if burst < 1 then 1 else burst) as real
  {
    var c := NewConfig(rate, burst, ttl);
    if ttl <= 0.0 || rate * ttl >= c.burst {
      forall before, during, key, start, from, to | Timely(before, start, from) && Timely(during, from, to)
        ensures Bounded(c, before, during, key, from, to)
      {
        IntervalBound(c, before, during, key, start, from, to);
      }
    } else {
      var n := if burst < 1 then 1 else burst;
      TwiceIsAdmitted(c, n);
      assert Final(c, EMPTY, []) == EMPTY;
      assert (ttl - 0.0) * rate == rate * ttl;
      assert Timely([], 0.0, 0.0) && !Bounded(c, [], Twice(c, n), 0, 0.0, ttl);
    }
  }

  lemma KeepingAllowance(c: Config, seconds: real)
    ensures Allowance(Keeping(c), seconds) == Allowance(c, seconds)
  {
  }

  lemma AlikeBound(c: Config, s: State, p: State, reqs: seq<Request>, key: Key, from: real, to: real)
    requires Usable(c) && c.rate * c.ttl >= c.burst && Alike(c, s, p, from) && from <= to
    requires SortedFrom(reqs, from) && Until(reqs, to)
    ensures Admitted(Answers(c, s, reqs), reqs, key) as real <= Allowance(c, to - from)
  {
    AlikeIsSane(c, s, p, from);
    KeepingAllowance(c, to - from);
    KeepingBound(Keeping(c), p, reqs, key, from, to);
    assert Answers(c, s, reqs) == Answers(Keeping(c), p, reqs) by {
      AlikeAnswers(c, s, p, reqs, from);
    }
  }

  lemma KeepingBound(c: Config, s: State, reqs: seq<Request>, key: Key, from: real, to: real)
    requires Usable(c) && c.ttl <= 0.0 && AllSane(c, s, from) && from <= to
    requires SortedFrom(reqs, from) && Until(reqs, to)
    ensures Admitted(Answers(c, s, reqs), reqs, key) as real <= Allowance(c, to - from)
  {
    AdmissionsArePaid(c, s, reqs, key, from, to);
    FullIsMost(c, Tokens(c, s.buckets, key, from), to - from);
  }

  lemma FullIsMost(c: Config, tokens: real, seconds: real)
    requires tokens <= c.burst
    ensures Earned(c, tokens, seconds) <= Allowance(c, seconds)
  {
  }

  lemma AlikeIsSane(c: Config, s: State, p: State, now: real)
    requires Alike(c, s, p, now)
    ensures AllSane(Keeping(c), p, now)
  {
    forall k | k in p.buckets ensures Sane(c, p.buckets[k], now) {
      assert AlikeAt(c, s, p, now, k);
    }
  }

  // ----- the retry hint

  lemma OneTokenIsEnough(c: Config, s: State, key: Key, now: real)
    requires Usable(c) && Tokens(c, Sweep(c, s, now).buckets, key, now) >= 1.0
    ensures Admit(c, s, key, now).1.ok
  {
  }

  lemma CeilIsLeast(x: real, n: int)
    ensures n >= Ceil(x) <==> n as real >= x
  {
  }

  /** The hint is the least whole number of seconds that earns the missing part of a token. */
  lemma HintEarnsToken(c: Config, tokens: real, n: int)
    requires Usable(c) && tokens < 1.0
    ensures n >= Judge(c, tokens).retryAfter <==> Earned(c, tokens, n as real) >= 1.0
  {
    CeilIsLeast((1.0 - tokens) / c.rate, n);
    QuotientBelow(1.0 - tokens, c.rate, n as real);
  }

  /** Since its denial at `denied` with so many tokens left, the key has been refilling. */
  ghost predicate Refilling(c: Config, s: State, key: Key, tokens: real, denied: real, now: real) {
    key in s.buckets ==>
      var b := s.buckets[key]; b.last <= now && b.tokens >= Min(1.0, Earned(c, tokens, b.last - denied))
  }

  lemma RefillKeepsFloor(c: Config, b: Level, tokens: real, denied: real, now: real)
    requires Usable(c) && b.last <= now && b.tokens >= Min(1.0, Earned(c, tokens, b.last - denied))
    ensures Refilled(c, b, now) >= Min(1.0, Earned(c, tokens, now - denied))
  {
    var waited, more := b.last - denied, now - b.last;
    FloorGrowth(b.tokens, tokens, waited, more, c.rate, c.burst);
    assert now - denied == waited + more;
  }

  lemma RefillingTokens(c: Config, s: State, key: Key, tokens: real, denied: real, before: real, now: real)
    requires Usable(c) && Refilling(c, s, key, tokens, denied, before) && before <= now
    ensures Tokens(c, Sweep(c, s, now).buckets, key, now) >= Min(1.0, Earned(c, tokens, now - denied))
  {
    if key in s.buckets {
      RefillKeepsFloor(c, s.buckets[key], tokens, denied, now);
    }
  }

  /** Requests of other keys, and denied ones of this key, do not set it back. */
  lemma RefillingGoesOn(c: Config, s: State, key: Key, tokens: real, denied: real, before: real, r: Request)
    requires Usable(c) && Refilling(c, s, key, tokens, denied, before) && before <= r.at
    requires r.key == key ==> !Admit(c, s, key, r.at).1.ok
    ensures Refilling(c, Admit(c, s, r.key, r.at).0, key, tokens, denied, r.at)
  {
    if r.key == key {
      RefillingTokens(c, s, key, tokens, denied, before, r.at);
    }
  }

  ghost predicate NoneFor(answers: seq<Answer>, reqs: seq<Request>, key: Key)
    requires |answers| == |reqs|
  {
    forall i :: 0 <= i < |reqs| && reqs[i].key == key ==> !answers[i].ok
  }

  lemma {:induction false} RefillingThrough(c: Config, s: State, key: Key, tokens: real, denied: real, before: real,
                                            reqs: seq<Request>, end: real)
    requires Usable(c) && Refilling(c, s, key, tokens, denied, before)
    requires SortedFrom(reqs, before) && Until(reqs, end) && before <= end
    requires NoneFor(Answers(c, s, reqs), reqs, key)
    ensures Refilling(c, Final(c, s, reqs), key, tokens, denied, end)
    decreases |reqs|
  {
    if reqs != [] {
      var (next, answer) := Admit(c, s, reqs[0].key, reqs[0].at);
      var answers := Answers(c, s, reqs);
      assert answers[0] == answer && answers[1..] == Answers(c, next, reqs[1..]);
      forall i | 0 <= i < |reqs| - 1 && reqs[1..][i].key == key ensures !answers[1..][i].ok {
        assert reqs[i + 1].key == key;
      }
      RefillingGoesOn(c, s, key, tokens, denied, before, reqs[0]);
      RefillingThrough(c, next, key, tokens, denied, reqs[0].at, reqs[1..], end);
    }
  }

  /**
   A denied request that is retried no sooner than the hint says is let through, if the
   key had no admission in between; it does not matter what others do or what is evicted.
   */
  lemma RetryIsAdmitted(c: Config, s: State, key: Key, denied: real, between: seq<Request>, retried: real)
    requires Usable(c)
    requires var (next, answer) := Admit(c, s, key, denied);
      && !answer.ok && SortedFrom(between, denied) && Until(between, retried)
      && NoneFor(Answers(c, next, between), between, key)
      && denied + answer.retryAfter as real <= retried
    ensures var next := Admit(c, s, key, denied).0;
      Admit(c, Final(c, next, between), key, retried).1.ok
  {
    var tokens := Tokens(c, Sweep(c, s, denied).buckets, key, denied);
    var (next, answer) := Admit(c, s, key, denied);
    assert next.buckets[key] == Level(tokens, denied);
    RefillingAtDenial(c, next, key, tokens, denied);
    RetryAfterHint(c, next, key, tokens, denied, answer.retryAfter, between, retried);
  }

  lemma RefillingAtDenial(c: Config, next: State, key: Key, tokens: real, denied: real)
    requires Usable(c) && key in next.buckets && next.buckets[key] == Level(tokens, denied)
    ensures Refilling(c, next, key, tokens, denied, denied)
  {
  }

  lemma RetryAfterHint(c: Config, next: State, key: Key, tokens: real, denied: real, hint: int, between: seq<Request>,
                       retried: real)
    requires Usable(c) && tokens < 1.0 && hint == Judge(c, tokens).retryAfter && denied + hint as real <= retried
    requires Refilling(c, next, key, tokens, denied, denied)
    requires SortedFrom(between, denied) && Until(between, retried) && NoneFor(Answers(c, next, between), between, key)
    ensures Admit(c, Final(c, next, between), key, retried).1.ok
  {
    HintIsPositive(c, tokens);
    RefillingThrough(c, next, key, tokens, denied, denied, between, retried);
    RetryFromRefilling(c, Final(c, next, between), key, tokens, denied, hint, retried);
  }

  lemma RetryFromRefilling(c: Config, s: State, key: Key, tokens: real, denied: real, hint: int, retried: real)
    requires Usable(c) && tokens < 1.0 && hint == Judge(c, tokens).retryAfter && denied + hint as real <= retried
    requires Refilling(c, s, key, tokens, denied, retried)
    ensures Admit(c, s, key, retried).1.ok
  {
    RefillingTokens(c, s, key, tokens, denied, retried, retried);
    WaitEarnsToken(c, tokens, hint, retried - denied);
    OneTokenIsEnough(c, s, key, retried);
  }

  lemma WaitEarnsToken(c: Config, tokens: real, hint: int, wait: real)
    requires Usable(c) && tokens < 1.0 && hint == Judge(c, tokens).retryAfter && hint as real <= wait
    ensures Earned(c, tokens, wait) >= 1.0
  {
    HintEarnsToken(c, tokens, hint);
    MulMono(hint as real, wait, c.rate);
  }

  lemma HintIsPositive(c: Config, tokens: real)
    requires Usable(c) && tokens < 1.0
    ensures Judge(c, tokens).retryAfter > 0
  {
    HintEarnsToken(c, tokens, 0);
  }

  /** A whole number of seconds after a denial the key gets a token if and only if it waited as long as it was told. */
  ghost predicate HintHolds(c: Config, s: State, key: Key, denied: real, n: nat) {
    var (next, answer) := Admit(c, s, key, denied);
    !answer.ok ==> (Admit(c, next, key, denied + n as real).1.ok <==> n >= answer.retryAfter)
  }

  /** A whole number of seconds that reaches the ttl also earns a token. */
  predicate RefillsInTime(c: Config)
    requires c.rate > 0.0
  {
    c.ttl <= 0.0 || Ceil(c.ttl) >= Ceil(1.0 / c.rate)
  }

  /** The hint is the least one, in every state a limiter can be in. */
  lemma HintIsLeast(c: Config, reqs: seq<Request>, start: real, key: Key, denied: real, n: nat)
    requires Usable(c) && RefillsInTime(c) && Timely(reqs, start, denied)
    ensures HintHolds(c, Final(c, EMPTY, reqs), key, denied, n)
  {
    var s := Final(c, EMPTY, reqs);
    AlwaysSane(c, reqs, start, denied);
    if key in s.buckets {
      RefillIsSane(c, s.buckets[key], denied);
    }
    if !Admit(c, s, key, denied).1.ok {
      HintFromSane(c, s, key, denied, n);
    }
  }

  lemma HintFromSane(c: Config, s: State, key: Key, denied: real, n: nat)
    requires Usable(c) && RefillsInTime(c)
    requires 0.0 <= Tokens(c, Sweep(c, s, denied).buckets, key, denied) < 1.0
    ensures HintHolds(c, s, key, denied, n)
  {
    var tokens := Tokens(c, Sweep(c, s, denied).buckets, key, denied);
    var next := Admit(c, s, key, denied).0;
    HintEarnsToken(c, tokens, n);
    assert next.buckets[key] == Level(tokens, denied);
    TokensLater(c, next, key, tokens, denied, n);
  }

  lemma TokensLater(c: Config, next: State, key: Key, tokens: real, denied: real, n: nat)
    requires Usable(c) && RefillsInTime(c)
    requires 0.0 <= tokens < 1.0 && key in next.buckets && next.buckets[key] == Level(tokens, denied)
    ensures Admit(c, next, key, denied + n as real).1.ok <==> Earned(c, tokens, n as real) >= 1.0
  {
    var now := denied + n as real;
    LevelLater(c, tokens, denied, n as real);
    if key !in Sweep(c, next, now).buckets {
      assert n as real >= c.ttl;
      IdleEarnsToken(c, tokens, n);
    }
  }

  lemma LevelLater(c: Config, tokens: real, denied: real, seconds: real)
    requires Usable(c)
    ensures Refilled(c, Level(tokens, denied), denied + seconds) >= 1.0 <==> Earned(c, tokens, seconds) >= 1.0
  {
    assert (denied + seconds) - denied == seconds;
  }

  lemma IdleEarnsToken(c: Config, tokens: real, n: nat)
    requires Usable(c) && c.ttl > 0.0 && RefillsInTime(c) && n as real >= c.ttl && tokens >= 0.0
    ensures Earned(c, tokens, n as real) >= 1.0
  {
    CeilIsLeast(c.ttl, n);
    CeilIsLeast(1.0 / c.rate, n);
    QuotientBelow(1.0, c.rate, n as real);
  }

  ghost predicate AlwaysLeast(c: Config) {
    forall reqs, start, key, denied, n: nat :: Timely(reqs, start, denied) ==>
      HintHolds(c, Final(c, EMPTY, reqs), key, denied, n)
  }

  /** A spent bucket that is evicted before it has earned a token comes back full, sooner than it was told. */
  lemma EvictedTooSoon(c: Config, n: nat)
    requires Usable(c) && c.burst == n as real && c.ttl > 0.0 && Ceil(c.ttl) < Ceil(1.0 / c.rate)
    ensures Ceil(c.ttl) >= 0 && !HintHolds(c, Final(c, EMPTY, Volley(0, n, 0.0)), 0, 0.0, Ceil(c.ttl))
  {
    var spent, wait := Lone(0.0, 0.0, Some(0.0)), Ceil(c.ttl);
    CeilIsLeast(c.ttl, wait);
    TwoVolleysEvicting(c, n);
    LoneStep(c, 0.0, 0.0, Some(0.0));
    assert Admit(c, spent, 0, 0.0) == (spent, Answer(false, Ceil((1.0 - 0.0) / c.rate)));
    assert IdleAt(c, spent.buckets[0], wait as real) && Sweep(c, spent, wait as real).buckets == map[];
    assert Admit(c, spent, 0, 0.0 + wait as real).1.ok;
  }

  /** The hint is always the least one exactly when an eviction cannot come before the earned token. */
  lemma HintIsLeastExactly(rate: real, burst: int, ttl: real)
    requires rate > 0.0
    ensures AlwaysLeast(NewConfig(rate, burst, ttl)) <==> ttl <= 0.0 || Ceil(ttl) >= Ceil(1.0 / rate)
  {
    var c := NewConfig(rate, burst, ttl);
    if RefillsInTime(c) {
      forall reqs, start, key, denied, n: nat | Timely(reqs, start, denied)
        ensures HintHolds(c, Final(c, EMPTY, reqs), key, denied, n)
      {
        HintIsLeast(c, reqs, start, key, denied, n);
      }
    } else {
      var n := if burst < 1 then 1 else burst;
      EvictedTooSoon(c, n);
      VolleyIsSorted(n, 0.0);
      VolleyEndsBy(n, 0.0);
      assert Timely(Volley(0, n, 0.0), 0.0, 0.0);
    }
  }
}
