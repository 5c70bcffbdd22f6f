/** The per-key token-bucket limiter of internal/ratelimit/limiter.go; times in seconds and tokens are reals. */
module Limiter {
  import opened Common

  type Key = nat

  /** `burst` is at least one, as New clamps it. */
  datatype Config = Config(rate: real, burst: real, ttl: real)

  datatype Level = Level(tokens: real, last: real)

  /** The last sweep is None until the first one: the zero time is longer ago than any ttl. */
  datatype State = State(buckets: map<Key, Level>, lastSweep: Option<real>)

  datatype Answer = Answer(ok: bool, retryAfter: int)

  const EMPTY := State(map[], None)

  function NewConfig(rate: real, burst: int, ttl: real): Config {
    Config(rate, if burst < 1 then 1.0 else burst as real, ttl)
  }

  function Min(x: real, y: real): real {
    if x <= y then x else y
  }

  function Ceil(x: real): int {
    -((-x).Floor)
  }

  predicate SweepDue(c: Config, s: State, now: real) {
    c.ttl > 0.0 && (s.lastSweep == None || now - s.lastSweep.value >= c.ttl)
  }

  predicate IdleAt(c: Config, b: Level, now: real) {
    now - b.last >= c.ttl
  }

  function Sweep(c: Config, s: State, now: real): State {
    if !SweepDue(c, s, now) then s
    else State(map k | k in s.buckets && !IdleAt(c, s.buckets[k], now) :: s.buckets[k], Some(now))
  }

  function Refilled(c: Config, b: Level, now: real): real {
    Min(c.burst, b.tokens + (now - b.last) * c.rate)
  }

  /** What the bucket of a key holds at a later time. */
  function Tokens(c: Config, buckets: map<Key, Level>, key: Key, now: real): real {
    if key in buckets then Refilled(c, buckets[key], now) else c.burst
  }

  function Judge(c: Config, tokens: real): Answer
    requires c.rate > 0.0
  {
    if tokens >= 1.0 then Answer(true, 0) else Answer(false, Ceil((1.0 - tokens) / c.rate))
  }

  function Left(tokens: real): real {
    if tokens >= 1.0 then tokens - 1.0 else tokens
  }

  /** Take one token if there is one. */
  function Take(c: Config, buckets: map<Key, Level>, key: Key, now: real): (map<Key, Level>, Answer)
    requires c.rate > 0.0
  {
    var tokens := Tokens(c, buckets, key, now);
    (buckets[key := Level(Left(tokens), now)], Judge(c, tokens))
  }

  function Admit(c: Config, s: State, key: Key, now: real): (State, Answer) {
    if c.rate <= 0.0 then (s, Answer(true, 0))
    else
      var swept := Sweep(c, s, now);
      var (buckets, answer) := Take(c, swept.buckets, key, now);
      (State(buckets, swept.lastSweep), answer)
  }

  class Bucket {
    var tokens: real
    var last: real

    constructor (tokens: real, last: real)
      ensures this.tokens == tokens && this.last == last
    {
      this.tokens, this.last := tokens, last;
    }

    ghost function Value(): Level
      reads this
    {
      Level(tokens, last)
    }
  }

  class RateLimiter {
    const rate: real
    const burst: real
    const ttl: real
    var buckets: map<Key, Bucket>
    var lastSweep: Option<real>

    function Settings(): Config {
      Config(rate, burst, ttl)
    }

    /** No two keys share a bucket. */
    ghost predicate Valid()
      reads this
    {
      forall j, k :: j in buckets && k in buckets && j != k ==> buckets[j] != buckets[k]
    }

    ghost function View(): State
      reads this, buckets.Values
    {
      State(Levels(), lastSweep)
    }

    ghost function Levels(): map<Key, Level>
      reads this, buckets.Values
    {
      map k: Key | k in buckets :: buckets[k].Value()
    }

    constructor (rate: real, burst: int, ttl: real)
      ensures Valid() && View() == EMPTY && Settings() == NewConfig(rate, burst, ttl) && buckets == map[]
    {
      this.rate, this.ttl := rate, ttl;
      this.burst := if burst < 1 then 1.0 else burst as real;
      buckets, lastSweep := map[], None;
    }

    /** Evict the idle buckets, at most once per ttl window. */
    method SweepIdle(now: real)
      requires Valid()
      modifies this
      ensures Valid() && View() == Sweep(Settings(), old(View()), now)
      ensures buckets.Values <= old(buckets.Values)
      ensures var due := ttl > 0.0 && (old(lastSweep) == None || now - old(lastSweep).value >= ttl);
        && lastSweep == (if due then Some(now) else old(lastSweep))
        && (forall k :: k in buckets <==> k in old(buckets) && (due ==> now - old(buckets[k].last) < ttl))
        && (forall k :: k in buckets ==> buckets[k] == old(buckets[k]))
    {
      if ttl <= 0.0 || (lastSweep.Some? && now - lastSweep.value < ttl) {
        return;
      }
      lastSweep := Some(now);
      EvictIdle(now);
    }

    method EvictIdle(now: real)
      requires Valid()
      modifies `buckets
      ensures Valid() && forall k :: k in buckets ==> k in old(buckets) && buckets[k] == old(buckets)[k]
      ensures forall k :: k in old(buckets) ==> (k in buckets <==> now - old(buckets)[k].last < ttl)
    {
      ghost var all := buckets;
      var todo := buckets.Keys;
      while todo != {}
        invariant todo <= buckets.Keys <= all.Keys
        invariant forall k :: k in buckets ==> buckets[k] == all[k]
        invariant forall k :: k in all ==> (k in buckets <==> k in todo || now - all[k].last < ttl)
      {
        var k :| k in todo;
        if now - buckets[k].last >= ttl {
          buckets := buckets - {k};
        }
        todo := todo - {k};
      }
    }

    /** The key's own bucket, refilled up to now. */
    method Refill(key: Key, now: real) returns (b: Bucket)
      requires Valid()
      modifies this`buckets, buckets.Values
      ensures Valid() && key in buckets && buckets[key] == b && fresh(buckets.Values - old(buckets.Values))
      ensures b.Value() == Level(Tokens(Settings(), old(Levels()), key, now), now)
      ensures Levels() == old(Levels())[key := b.Value()]
    {
      if key !in buckets {
        b := new Bucket(burst, now);
        buckets := buckets[key := b];
      } else {
        b := buckets[key];
        b.tokens := Refilled(Settings(), Level(b.tokens, b.last), now);
        b.last := now;
      }
    }

    /** Take a token from the key's bucket if it holds one. */
    method Spend(key: Key, b: Bucket) returns (ok: bool)
      requires Valid() && key in buckets && buckets[key] == b
      modifies b
      ensures Valid() && ok == (old(b.tokens) >= 1.0) && b.last == old(b.last) && b.tokens == Left(old(b.tokens))
      ensures Levels() == old(Levels())[key := b.Value()]
    {
      ok := b.tokens >= 1.0;
      if ok {
        b.tokens := b.tokens - 1.0;
      }
    }

    method Charge(key: Key, now: real) returns (ok: bool, retryAfter: int)
      requires Valid() && rate > 0.0
      modifies this`buckets, buckets.Values
      ensures Valid() && fresh(buckets.Values - old(buckets.Values))
      ensures Levels() == Take(Settings(), old(Levels()), key, now).0
      ensures Answer(ok, retryAfter) == Take(Settings(), old(Levels()), key, now).1
    {
      var b := Refill(key, now);
      ghost var refilled := b.Value();
      ok := Spend(key, b);
      retryAfter := if ok then 0 else Ceil((1.0 - b.tokens) / rate);
      SettledTwice(old(Levels()), key, refilled, b.Value());
    }

    method Allow(key: Key, now: real) returns (ok: bool, retryAfter: int)
      requires Valid()
      modifies this, buckets.Values
      ensures Valid() && fresh(buckets.Values - old(buckets.Values))
      ensures var (view, answer) := Admit(Settings(), old(View()), key, now);
        View() == view && Answer(ok, retryAfter) == answer
    {
      if rate <= 0.0 {
        return true, 0;
      }
      SweepIdle(now);
      ok, retryAfter := Charge(key, now);
    }
  }

  lemma SettledTwice(m: map<Key, Level>, k: Key, x: Level, y: Level)
    ensures m[k := x][k := y] == m[k := y]
  {
  }
}
