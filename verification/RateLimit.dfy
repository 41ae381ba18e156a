/** The fixed-window limiter over a shared Redis. Times are nanoseconds since the epoch. */
module RateLimit {
  import opened Arith
  import Text
  import Decimal

  const SECOND := 1_000_000_000

  datatype Config = Config(prefix: string, limit: int, window: int)

  datatype Counter = Counter(count: int, expires: int)

  type Redis = map<string, Counter>

  /** How a pipeline goes: it may be lost before or after it is carried out. */
  datatype Fault = Fine | Lost | Unheard

  datatype Event = Event(key: string, now: nat, fault: Fault)

  /** Go's division of durations truncates toward zero. */
  function WholeSeconds(d: int): int {
    if d >= 0 then d / SECOND else -((-d) / SECOND)
  }

  function WindowSeconds(cfg: Config): (r: int)
    ensures r > 0
  {
    var seconds := WholeSeconds(cfg.window);
    if seconds <= 0 then 60 else seconds
  }

  function Bucket(cfg: Config, now: nat): nat {
    (now / SECOND) / WindowSeconds(cfg)
  }

  /** The seconds after which Redis drops a counter, as EXPIRE is sent them: a part of a second counts as one. */
  function Lifetime(cfg: Config): int {
    var lifetime := cfg.window + 5 * SECOND;
    if 0 < lifetime < SECOND then 1 else WholeSeconds(lifetime)
  }

  function RedisKey(cfg: Config, key: string, bucket: nat): string {
    "ratelimit:" + cfg.prefix + ":" + key + ":" + Decimal.Print(bucket)
  }

  /** The count of a key at a time; an expired counter is gone. */
  function Count(redis: Redis, key: string, now: nat): int {
    if key in redis && now < redis[key].expires then redis[key].count else 0
  }

  /** INCR and EXPIRE in one transaction. */
  function Bump(redis: Redis, key: string, now: nat, lifetime: int): Redis {
    if lifetime <= 0 then redis - {key}
    else redis[key := Counter(Count(redis, key, now) + 1, now + lifetime * SECOND)]
  }

  function After(cfg: Config, redis: Redis, e: Event): Redis {
    if e.key == "" || e.fault == Lost then redis
    else Bump(redis, RedisKey(cfg, e.key, Bucket(cfg, e.now)), e.now, Lifetime(cfg))
  }

  predicate Passes(cfg: Config, redis: Redis, e: Event) {
    e.key == "" || e.fault != Fine || Count(redis, RedisKey(cfg, e.key, Bucket(cfg, e.now)), e.now) + 1 <= cfg.limit
  }

  class Limiter {
    const cfg: Config
    var redis: Redis

    constructor (cfg: Config)
      ensures this.cfg == cfg && redis == map[]
    {
      this.cfg := cfg;
      redis := map[];
    }

    /** One request; the caller's key may be empty. */
    method Handle(e: Event) returns (next: bool)
      modifies this
      ensures redis == After(cfg, old(redis), e)
      ensures next <==> Passes(cfg, old(redis), e)
      ensures e.key == "" || e.fault != Fine ==> next
      ensures e.key == "" ==> redis == old(redis)
    {
      if e.key == "" {
        return true;
      }
      var windowSeconds := WholeSeconds(cfg.window);
      if windowSeconds <= 0 {
        windowSeconds := 60;
      }
      var bucket := (e.now / SECOND) / windowSeconds;
      var redisKey := "ratelimit:" + cfg.prefix + ":" + e.key + ":" + Decimal.Print(bucket);
      if e.fault == Lost {
        return true;
      }
      var count := Count(redis, redisKey, e.now) + 1;
      redis := Bump(redis, redisKey, e.now, Lifetime(cfg));
      if e.fault == Unheard {
        return true;
      }
      return count <= cfg.limit;
    }
  }

  // ---- Keys ----

  lemma RedisKeyInjective(cfg: Config, k: string, b: nat, k': string, b': nat)
    requires RedisKey(cfg, k, b) == RedisKey(cfg, k', b')
    ensures k == k' && b == b'
  {
    var head := "ratelimit:" + cfg.prefix + ":";
    var d, d' := Decimal.Print(b), Decimal.Print(b');
    assert RedisKey(cfg, k, b) == (head + k) + ":" + d && RedisKey(cfg, k', b') == (head + k') + ":" + d';
    assert ':' !in d && ':' !in d';
    Text.CutLast(head + k, d, head + k', d', ':');
    assert k == (head + k)[|head|..] && k' == (head + k')[|head|..];
    Decimal.PrintInjective(b, b');
  }

  /** Limiters whose prefixes hold no colon keep out of each other's counters. */
  lemma LimitersAreApart(a: Config, b: Config, k: string, n: nat, k': string, n': nat)
    requires ':' !in a.prefix && ':' !in b.prefix && RedisKey(a, k, n) == RedisKey(b, k', n')
    ensures a.prefix == b.prefix && k == k' && n == n'
  {
    var head := "ratelimit:";
    var rest, rest' := k + ":" + Decimal.Print(n), k' + ":" + Decimal.Print(n');
    assert RedisKey(a, k, n) == head + (a.prefix + ":" + rest);
    assert RedisKey(b, k', n') == head + (b.prefix + ":" + rest');
    assert RedisKey(a, k, n)[|head|..] == a.prefix + ":" + rest;
    assert RedisKey(b, k', n')[|head|..] == b.prefix + ":" + rest';
    Text.CutFirst(a.prefix, rest, b.prefix, rest', ':');
    RedisKeyInjective(a, k, n, k', n');
  }

  // ---- Traces ----

  /** The counters after the first n requests of a trace. */
  function State(cfg: Config, trace: seq<Event>, n: nat): Redis
    requires n <= |trace|
  {
    if n == 0 then map[] else After(cfg, State(cfg, trace, n - 1), trace[n - 1])
  }

  predicate Accepted(cfg: Config, trace: seq<Event>, i: nat)
    requires i < |trace|
  {
    Passes(cfg, State(cfg, trace, i), trace[i])
  }

  predicate Ordered(trace: seq<Event>) {
    forall i, j | 0 <= i <= j < |trace| :: trace[i].now <= trace[j].now
  }

  predicate Available(trace: seq<Event>) {
    forall i | 0 <= i < |trace| :: trace[i].fault == Fine
  }

  predicate In(cfg: Config, e: Event, key: string, bucket: nat) {
    e.key == key && Bucket(cfg, e.now) == bucket
  }

  /** How many of the first n requests are of a key and a bucket. */
  function Made(cfg: Config, trace: seq<Event>, n: nat, key: string, bucket: nat): nat
    requires n <= |trace|
  {
    if n == 0 then 0 else Made(cfg, trace, n - 1, key, bucket) + if In(cfg, trace[n - 1], key, bucket) then 1 else 0
  }

  /** A counter never runs ahead of the requests that were made, whatever is lost and however long the window is. */
  lemma {:induction false} CounterAtMostMade(cfg: Config, trace: seq<Event>, n: nat, key: string, bucket: nat)
    requires n <= |trace| && key != ""
    ensures var k := RedisKey(cfg, key, bucket);
            k in State(cfg, trace, n) ==> 0 <= State(cfg, trace, n)[k].count <= Made(cfg, trace, n, key, bucket)
  {
    if n > 0 {
      hide RedisKey, Bucket, Lifetime;
      CounterAtMostMade(cfg, trace, n - 1, key, bucket);
      var e := trace[n - 1];
      if RedisKey(cfg, e.key, Bucket(cfg, e.now)) == RedisKey(cfg, key, bucket) {
        RedisKeyInjective(cfg, e.key, Bucket(cfg, e.now), key, bucket);
      }
    }
  }

  /** A request is turned away only after as many requests of its key in its bucket as the limit allows: whatever Redis
      loses, nobody is denied too early. */
  lemma DeniedOnlyAfterLimit(cfg: Config, trace: seq<Event>, i: nat)
    requires i < |trace| && !Accepted(cfg, trace, i)
    ensures Made(cfg, trace, i, trace[i].key, Bucket(cfg, trace[i].now)) >= cfg.limit
  {
    CounterAtMostMade(cfg, trace, i, trace[i].key, Bucket(cfg, trace[i].now));
  }

  lemma BucketEnds(cfg: Config, a: nat, b: nat)
    requires cfg.window >= SECOND && a <= b && Bucket(cfg, a) == Bucket(cfg, b)
    ensures b < a + Lifetime(cfg) * SECOND
  {
    var w := WindowSeconds(cfg);
    var x, y := a / SECOND, b / SECOND;
    SameQuotient(x, y, w);
    assert Lifetime(cfg) == w + 5;
    assert y - x < w;
    assert b < (y + 1) * SECOND && a >= x * SECOND;
  }

  lemma SameQuotient(x: nat, y: nat, w: nat)
    requires w > 0 && x <= y && x / w == y / w
    ensures y - x < w
  {
    assert x == w * (x / w) + x % w && y == w * (y / w) + y % w;
  }

  /** How many of the first n requests are of a key and a bucket and were counted, whether or not Redis' answer was
      heard. */
  function Carried(cfg: Config, trace: seq<Event>, n: nat, key: string, bucket: nat): nat
    requires n <= |trace|
  {
    if n == 0 then 0
    else Carried(cfg, trace, n - 1, key, bucket) + if In(cfg, trace[n - 1], key, bucket) && trace[n - 1].fault != Lost then 1 else 0
  }

  lemma {:induction false} AllCarried(cfg: Config, trace: seq<Event>, n: nat, key: string, bucket: nat)
    requires n <= |trace| && Available(trace)
    ensures Carried(cfg, trace, n, key, bucket) == Made(cfg, trace, n, key, bucket)
  {
    if n > 0 {
      AllCarried(cfg, trace, n - 1, key, bucket);
    }
  }

  /** The counter of the current bucket is the number of requests that reached Redis, heard or not. */
  lemma {:induction false} CounterIsExact(cfg: Config, trace: seq<Event>, n: nat, key: string, now: nat)
    requires n <= |trace| && key != "" && Ordered(trace) && cfg.window >= SECOND
    requires forall i | 0 <= i < n :: trace[i].now <= now
    ensures Count(State(cfg, trace, n), RedisKey(cfg, key, Bucket(cfg, now)), now) == Carried(cfg, trace, n, key, Bucket(cfg, now))
  {
    if n > 0 {
      hide RedisKey, Bucket, Lifetime;
      CounterIsExact(cfg, trace, n - 1, key, now);
      var e := trace[n - 1];
      if RedisKey(cfg, e.key, Bucket(cfg, e.now)) == RedisKey(cfg, key, Bucket(cfg, now)) {
        RedisKeyInjective(cfg, e.key, Bucket(cfg, e.now), key, Bucket(cfg, now));
      }
      if In(cfg, e, key, Bucket(cfg, now)) {
        CounterIsExact(cfg, trace, n - 1, key, e.now);
        BucketEnds(cfg, e.now, now);
      }
    }
  }

  /** A request without a key passes, and so does one that meets a fault, in every trace and for every window. */
  lemma FaultsPass(cfg: Config, trace: seq<Event>, i: nat)
    requires i < |trace| && (trace[i].key == "" || trace[i].fault == Lost || trace[i].fault == Unheard)
    ensures Accepted(cfg, trace, i)
  {
  }

  /** In every trace, whatever is lost, a request is denied exactly when it has a key, is answered, and finds its bucket
      used up by requests that reached Redis. */
  lemma DeniedIff(cfg: Config, trace: seq<Event>, i: nat)
    requires i < |trace| && Ordered(trace) && cfg.window >= SECOND
    ensures !Accepted(cfg, trace, i) <==>
            trace[i].key != "" && trace[i].fault == Fine &&
            Carried(cfg, trace, i, trace[i].key, Bucket(cfg, trace[i].now)) >= cfg.limit
  {
    hide RedisKey, Bucket, Lifetime;
    if trace[i].key != "" {
      CounterIsExact(cfg, trace, i, trace[i].key, trace[i].now);
    }
  }

  /** A request is accepted exactly when it is among the first of its key in its bucket, up to the limit. */
  ghost predicate AcceptsFirst(cfg: Config, trace: seq<Event>, i: nat)
    requires i < |trace|
  {
    Accepted(cfg, trace, i) <==> Made(cfg, trace, i, trace[i].key, Bucket(cfg, trace[i].now)) < cfg.limit
  }

  ghost predicate Proper(trace: seq<Event>) {
    Ordered(trace) && Available(trace) && forall i | 0 <= i < |trace| :: trace[i].key != ""
  }

  lemma AcceptsFirstWithin(cfg: Config, trace: seq<Event>, i: nat)
    requires Proper(trace) && i < |trace| && (cfg.window >= SECOND || cfg.limit <= 0)
    ensures AcceptsFirst(cfg, trace, i)
  {
    if cfg.window >= SECOND {
      CounterIsExact(cfg, trace, i, trace[i].key, trace[i].now);
      AllCarried(cfg, trace, i, trace[i].key, Bucket(cfg, trace[i].now));
    } else {
      CountNotNegative(cfg, trace, i, trace[i].key, trace[i].now);
    }
  }

  lemma CountNotNegative(cfg: Config, trace: seq<Event>, n: nat, key: string, now: nat)
    requires n <= |trace| && key != ""
    ensures Count(State(cfg, trace, n), RedisKey(cfg, key, Bucket(cfg, now)), now) >= 0
  {
    CounterAtMostMade(cfg, trace, n, key, Bucket(cfg, now));
  }

  /** As many requests as the limit allows at the epoch, and one more ten seconds later. */
  function LateComer(limit: nat): (trace: seq<Event>)
    ensures |trace| == limit + 1 && forall i | 0 <= i < |trace| :: trace[i] == Event("k", if i < limit then 0 else 10 * SECOND, Fine)
  {
    seq(limit + 1, i requires 0 <= i <= limit => Event("k", if i < limit then 0 else 10 * SECOND, Fine))
  }

  predicate DroppedBy(redis: Redis, time: int) {
    forall k | k in redis :: redis[k].expires <= time
  }

  lemma {:induction false} AllExpired(cfg: Config, limit: nat, n: nat)
    requires n <= limit && cfg.window < SECOND
    ensures DroppedBy(State(cfg, LateComer(limit), n), 5 * SECOND)
    ensures Made(cfg, LateComer(limit), n, "k", 0) == n
  {
    if n > 0 {
      hide RedisKey, Bucket, Lifetime;
      AllExpired(cfg, limit, n - 1);
      ShortLifetime(cfg);
      assert LateComer(limit)[n - 1] == Event("k", 0, Fine);
      BumpExpires(State(cfg, LateComer(limit), n - 1), RedisKey(cfg, "k", 0), Lifetime(cfg));
    }
  }

  lemma BumpExpires(redis: Redis, key: string, lifetime: int)
    requires lifetime <= 5 && DroppedBy(redis, 5 * SECOND)
    ensures DroppedBy(Bump(redis, key, 0, lifetime), 5 * SECOND)
  {
    assert lifetime * SECOND <= 5 * SECOND;
  }

  lemma ShortLifetime(cfg: Config)
    requires cfg.window < SECOND
    ensures Lifetime(cfg) <= 5 && WindowSeconds(cfg) == 60 && Bucket(cfg, 0) == Bucket(cfg, 10 * SECOND) == 0
  {
  }

  /** For a window of less than a second the bucket is a minute long but its counter is dropped after five seconds. */
  lemma ShortWindowForgets(cfg: Config)
    requires cfg.window < SECOND && cfg.limit > 0
    ensures Proper(LateComer(cfg.limit)) && !AcceptsFirst(cfg, LateComer(cfg.limit), cfg.limit)
  {
    AllExpired(cfg, cfg.limit, cfg.limit);
    ShortLifetime(cfg);
  }

  /** Every bucket accepts exactly its first requests, in every trace, exactly for windows of a second or more (and for
      a limit that accepts nothing). */
  lemma BucketsAcceptTheirFirstIff(cfg: Config)
    ensures (forall trace: seq<Event>, i: nat | Proper(trace) && i < |trace| :: AcceptsFirst(cfg, trace, i)) <==>
            cfg.window >= SECOND || cfg.limit <= 0
  {
    if cfg.window >= SECOND || cfg.limit <= 0 {
      forall trace: seq<Event>, i: nat | Proper(trace) && i < |trace|
        ensures AcceptsFirst(cfg, trace, i)
      {
        AcceptsFirstWithin(cfg, trace, i);
      }
    } else {
      ShortWindowForgets(cfg);
    }
  }

  // ---- Intervals ----

  predicate During(e: Event, key: string, start: nat, length: nat) {
    e.key == key && start <= e.now < start + length
  }

  function AcceptedDuring(cfg: Config, trace: seq<Event>, n: nat, key: string, start: nat, length: nat): nat
    requires n <= |trace|
  {
    if n == 0 then 0
    else AcceptedDuring(cfg, trace, n - 1, key, start, length) +
         if During(trace[n - 1], key, start, length) && Accepted(cfg, trace, n - 1) then 1 else 0
  }

  /** The requests of an interval that were made, and that were accepted, in one bucket. */
  function MadeDuringIn(cfg: Config, trace: seq<Event>, n: nat, key: string, start: nat, length: nat, bucket: nat): nat
    requires n <= |trace|
  {
    if n == 0 then 0
    else MadeDuringIn(cfg, trace, n - 1, key, start, length, bucket) +
         if During(trace[n - 1], key, start, length) && In(cfg, trace[n - 1], key, bucket) then 1 else 0
  }

  function AcceptedDuringIn(cfg: Config, trace: seq<Event>, n: nat, key: string, start: nat, length: nat, bucket: nat): nat
    requires n <= |trace|
  {
    if n == 0 then 0
    else AcceptedDuringIn(cfg, trace, n - 1, key, start, length, bucket) +
         if During(trace[n - 1], key, start, length) && In(cfg, trace[n - 1], key, bucket) && Accepted(cfg, trace, n - 1) then 1 else 0
  }

  /** The length of the window, none if it is negative. */
  function Length(cfg: Config): nat {
    if cfg.window > 0 then cfg.window else 0
  }

  lemma LifetimeCoversWindow(cfg: Config)
    requires cfg.window > 0
    ensures Lifetime(cfg) > 0 && Lifetime(cfg) * SECOND >= cfg.window
  {
  }

  lemma {:induction false} NoneBefore(cfg: Config, trace: seq<Event>, n: nat, key: string, start: nat, length: nat, bucket: nat)
    requires n <= |trace| && forall i | 0 <= i < n :: trace[i].now < start
    ensures MadeDuringIn(cfg, trace, n, key, start, length, bucket) == 0
  {
    if n > 0 {
      NoneBefore(cfg, trace, n - 1, key, start, length, bucket);
    }
  }

  /** Within an interval of one window no counter is dropped that a request of the interval has raised. */
  lemma {:induction false} CounterKeepsInterval(cfg: Config, trace: seq<Event>, n: nat, key: string, start: nat, now: nat)
    requires n <= |trace| && key != "" && Proper(trace) && cfg.window > 0
    requires start <= now < start + cfg.window && forall i | 0 <= i < n :: trace[i].now <= now
    ensures Count(State(cfg, trace, n), RedisKey(cfg, key, Bucket(cfg, now)), now) >=
            MadeDuringIn(cfg, trace, n, key, start, cfg.window, Bucket(cfg, now))
  {
    CountNotNegative(cfg, trace, n, key, now);
    if n > 0 {
      var e := trace[n - 1];
      if e.now < start {
        NoneBefore(cfg, trace, n, key, start, cfg.window, Bucket(cfg, now));
      } else {
        CounterKeepsInterval(cfg, trace, n - 1, key, start, now);
        KeepsOne(cfg, State(cfg, trace, n - 1), e, key, now);
        if In(cfg, e, key, Bucket(cfg, now)) {
          CounterKeepsInterval(cfg, trace, n - 1, key, start, e.now);
        }
      }
    }
  }

  /** What one request does to the counter of a key in a bucket. */
  lemma KeepsOne(cfg: Config, redis: Redis, e: Event, key: string, now: nat)
    requires key != "" && e.key != "" && e.fault == Fine && e.now <= now < e.now + cfg.window && cfg.window > 0
    ensures var k := RedisKey(cfg, key, Bucket(cfg, now));
            Count(After(cfg, redis, e), k, now) ==
            if In(cfg, e, key, Bucket(cfg, now)) then Count(redis, k, e.now) + 1 else Count(redis, k, now)
  {
    hide RedisKey, Bucket, Lifetime;
    LifetimeCoversWindow(cfg);
    if RedisKey(cfg, e.key, Bucket(cfg, e.now)) == RedisKey(cfg, key, Bucket(cfg, now)) {
      RedisKeyInjective(cfg, e.key, Bucket(cfg, e.now), key, Bucket(cfg, now));
    }
  }

  /** A bucket accepts at most the limit during one window, also when its counter is dropped later. */
  lemma {:induction false} IntervalOfBucket(cfg: Config, trace: seq<Event>, n: nat, key: string, start: nat, bucket: nat)
    requires n <= |trace| && Proper(trace) && cfg.window > 0
    ensures var accepted := AcceptedDuringIn(cfg, trace, n, key, start, cfg.window, bucket);
            accepted <= MadeDuringIn(cfg, trace, n, key, start, cfg.window, bucket) && (accepted == 0 || accepted <= cfg.limit)
  {
    if n > 0 {
      hide Bucket, RedisKey;
      IntervalOfBucket(cfg, trace, n - 1, key, start, bucket);
      var e := trace[n - 1];
      if During(e, key, start, cfg.window) && In(cfg, e, key, bucket) {
        CounterKeepsInterval(cfg, trace, n - 1, key, start, e.now);
      }
    }
  }

  /** A bucket and one nanosecond reach into two buckets. */
  lemma TwoBuckets(cfg: Config, start: nat, now: nat)
    requires start <= now <= start + WindowSeconds(cfg) * SECOND
    ensures Bucket(cfg, now) == Bucket(cfg, start) || Bucket(cfg, now) == Bucket(cfg, start) + 1
  {
    var w := WindowSeconds(cfg);
    var x, y := start / SECOND, now / SECOND;
    assert x <= y <= x + w;
    QuotientBounds(x, w);
    QuotientBounds(y, w);
    assert (x / w + 2) * w == x / w * w + w + w;
    assert (y / w + 1) * w == y / w * w + w;
    FactorLess(y / w, x / w + 2, w);
    FactorLess(x / w, y / w + 1, w);
  }

  lemma {:induction false} DuringTwoBuckets(cfg: Config, trace: seq<Event>, n: nat, key: string, start: nat, length: nat)
    requires n <= |trace| && length <= WindowSeconds(cfg) * SECOND + 1
    ensures AcceptedDuring(cfg, trace, n, key, start, length) <=
            AcceptedDuringIn(cfg, trace, n, key, start, length, Bucket(cfg, start)) +
            AcceptedDuringIn(cfg, trace, n, key, start, length, Bucket(cfg, start) + 1)
  {
    if n > 0 {
      hide Accepted, Bucket, WindowSeconds;
      DuringTwoBuckets(cfg, trace, n - 1, key, start, length);
      if During(trace[n - 1], key, start, length) {
        TwoBuckets(cfg, start, trace[n - 1].now);
      }
    }
  }

  function AtLeastZero(n: int): nat {
    if n >= 0 then n else 0
  }

  lemma AtMostTwice(cfg: Config, trace: seq<Event>, key: string, start: nat)
    requires Proper(trace) && cfg.window <= WindowSeconds(cfg) * SECOND + 1
    ensures AcceptedDuring(cfg, trace, |trace|, key, start, Length(cfg)) <= 2 * AtLeastZero(cfg.limit)
  {
    if cfg.window > 0 {
      DuringTwoBuckets(cfg, trace, |trace|, key, start, cfg.window);
      IntervalOfBucket(cfg, trace, |trace|, key, start, Bucket(cfg, start));
      IntervalOfBucket(cfg, trace, |trace|, key, start, Bucket(cfg, start) + 1);
    } else {
      NothingDuring(cfg, trace, |trace|, key, start);
    }
  }

  lemma {:induction false} NothingDuring(cfg: Config, trace: seq<Event>, n: nat, key: string, start: nat)
    requires n <= |trace|
    ensures AcceptedDuring(cfg, trace, n, key, start, 0) == 0
  {
    if n > 0 {
      NothingDuring(cfg, trace, n - 1, key, start);
    }
  }

  lemma {:induction false} NothingAccepted(cfg: Config, trace: seq<Event>, n: nat, key: string, start: nat, length: nat)
    requires n <= |trace| && Proper(trace) && cfg.limit <= 0
    ensures AcceptedDuring(cfg, trace, n, key, start, length) == 0
  {
    if n > 0 {
      NothingAccepted(cfg, trace, n - 1, key, start, length);
      AcceptsFirstWithin(cfg, trace, n - 1);
    }
  }

  // ---- Bursts ----

  /** When the first bucket ends. */
  function FirstEnd(cfg: Config): (r: int)
    ensures r >= SECOND
  {
    WindowSeconds(cfg) * SECOND
  }

  function BurstTime(cfg: Config, i: nat): nat {
    if i < cfg.limit then FirstEnd(cfg) - 1 else if i < 2 * cfg.limit then FirstEnd(cfg) else 2 * FirstEnd(cfg)
  }

  /** As many requests as the limit allows at the very end of the first bucket, at the start of the second and at the
      start of the third. */
  function Burst(cfg: Config): (trace: seq<Event>)
    requires cfg.limit >= 0
    ensures |trace| == 3 * cfg.limit && forall i | 0 <= i < |trace| :: trace[i] == Event("k", BurstTime(cfg, i), Fine)
  {
    seq(3 * cfg.limit, i requires 0 <= i < 3 * cfg.limit => Event("k", BurstTime(cfg, i), Fine))
  }

  function BurstBucket(cfg: Config, i: nat): nat {
    if i < cfg.limit then 0 else if i < 2 * cfg.limit then 1 else 2
  }

  lemma BurstBuckets(cfg: Config, i: nat)
    ensures Bucket(cfg, BurstTime(cfg, i)) == BurstBucket(cfg, i)
  {
    var w := WindowSeconds(cfg);
    QuotientIs(w * SECOND - 1, SECOND, w - 1);
    QuotientIs(w * SECOND, SECOND, w);
    QuotientIs(2 * (w * SECOND), SECOND, 2 * w);
    QuotientIs(w - 1, w, 0);
    QuotientIs(w, w, 1);
    QuotientIs(2 * w, w, 2);
  }

  lemma BurstIsProper(cfg: Config)
    requires cfg.limit >= 0
    ensures Proper(Burst(cfg))
  {
    hide FirstEnd;
  }

  lemma {:induction false} BurstMade(cfg: Config, n: nat)
    requires cfg.limit >= 0 && n <= 3 * cfg.limit
    ensures Made(cfg, Burst(cfg), n, "k", 0) == if n < cfg.limit then n else cfg.limit
    ensures Made(cfg, Burst(cfg), n, "k", 1) == if n < cfg.limit then 0 else if n < 2 * cfg.limit then n - cfg.limit else cfg.limit
    ensures Made(cfg, Burst(cfg), n, "k", 2) == if n < 2 * cfg.limit then 0 else n - 2 * cfg.limit
  {
    if n > 0 {
      hide Bucket, BurstTime;
      BurstMade(cfg, n - 1);
      BurstBuckets(cfg, n - 1);
    }
  }

  lemma BurstIsAccepted(cfg: Config, i: nat)
    requires cfg.window >= SECOND && cfg.limit >= 0 && i < 3 * cfg.limit
    ensures Accepted(cfg, Burst(cfg), i)
  {
    hide Bucket, BurstTime, Accepted, Proper;
    BurstMade(cfg, i);
    BurstBuckets(cfg, i);
    BurstIsProper(cfg);
    AcceptsFirstWithin(cfg, Burst(cfg), i);
  }

  lemma {:induction false} BurstAccepted(cfg: Config, n: nat, length: nat)
    requires cfg.window >= SECOND && cfg.limit >= 0 && n <= 3 * cfg.limit && length >= 2
    ensures AcceptedDuring(cfg, Burst(cfg), n, "k", FirstEnd(cfg) - 1, length) ==
            if n <= 2 * cfg.limit || length > FirstEnd(cfg) + 1 then n else 2 * cfg.limit
  {
    if n > 0 {
      hide Accepted, FirstEnd;
      BurstAccepted(cfg, n - 1, length);
      BurstIsAccepted(cfg, n - 1);
    }
  }

  /** Twice the limit is reached within two nanoseconds around the end of a bucket. */
  lemma TwiceIsReached(cfg: Config)
    requires cfg.window >= SECOND && cfg.limit >= 0
    ensures Proper(Burst(cfg))
    ensures AcceptedDuring(cfg, Burst(cfg), |Burst(cfg)|, "k", FirstEnd(cfg) - 1, 2) == 2 * cfg.limit
  {
    BurstIsProper(cfg);
    BurstAccepted(cfg, |Burst(cfg)|, 2);
  }

  /** A window that is longer than its bucket by more than a nanosecond reaches into a third bucket. */
  lemma ThriceIsReached(cfg: Config)
    requires cfg.window > FirstEnd(cfg) + 1 && cfg.limit >= 0
    ensures Proper(Burst(cfg))
    ensures AcceptedDuring(cfg, Burst(cfg), |Burst(cfg)|, "k", FirstEnd(cfg) - 1, Length(cfg)) == 3 * cfg.limit
  {
    BurstIsProper(cfg);
    BurstAccepted(cfg, |Burst(cfg)|, Length(cfg));
  }

  /** With a window of one and a half seconds and a limit of one, three requests are accepted within one window. */
  lemma OneAndAHalfSeconds(cfg: Config, trace: seq<Event>)
    requires cfg.window == 1_500_000_000 && cfg.limit == 1
    requires trace == [Event("k", 999_999_999, Fine), Event("k", 1_000_000_000, Fine), Event("k", 2_000_000_000, Fine)]
    ensures Proper(trace) && AcceptedDuring(cfg, trace, 3, "k", 999_999_999, Length(cfg)) == 3
  {
    ThriceIsReached(cfg);
    assert trace == Burst(cfg);
  }

  /** Every interval of one window, wherever it starts, sees at most twice the limit accepted for a key, in every trace,
      exactly when the window is at most a nanosecond longer than its bucket or the limit accepts nothing. */
  lemma WindowAcceptsAtMostTwiceIff(cfg: Config)
    ensures (forall trace, key, start: nat | Proper(trace) ::
               AcceptedDuring(cfg, trace, |trace|, key, start, Length(cfg)) <= 2 * AtLeastZero(cfg.limit)) <==>
            cfg.window <= WindowSeconds(cfg) * SECOND + 1 || cfg.limit <= 0
  {
    if cfg.window <= WindowSeconds(cfg) * SECOND + 1 || cfg.limit <= 0 {
      forall trace, key, start: nat | Proper(trace)
        ensures AcceptedDuring(cfg, trace, |trace|, key, start, Length(cfg)) <= 2 * AtLeastZero(cfg.limit)
      {
        if cfg.limit <= 0 {
          NothingAccepted(cfg, trace, |trace|, key, start, Length(cfg));
        } else {
          AtMostTwice(cfg, trace, key, start);
        }
      }
    } else {
      ThriceIsReached(cfg);
    }
  }
}
