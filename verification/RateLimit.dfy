/** The evicting token bucket (server/internal/platform/ratelimit/limiter.go) against the
    never-evicting one it generalizes (server/internal/assist/ratelimit.go).  Times and intervals are
    integer nanoseconds, tokens are reals. */
module RateLimit {
  import opened Wrappers

  type Key(==) = string

  datatype Bucket = Bucket(tokens: real, last: int)

  datatype Config = Config(burst: int, interval: int, idleTTL: int, maxBuckets: int)

  type Buckets = map<Key, Bucket>

  const DEFAULT_IDLE_TTL := 600_000_000_000
  const DEFAULT_MAX_BUCKETS := 100_000

  // New
  function Configured(burst: int, interval: int, idleTTL: int, maxBuckets: int): Config {
    Config(burst, interval, if idleTTL <= 0 then DEFAULT_IDLE_TTL else idleTTL,
           if maxBuckets <= 0 then DEFAULT_MAX_BUCKETS else maxBuckets)
  }

  // ---- one bucket ----

  function Refilled(c: Config, b: Bucket, now: int): real {
    if c.interval > 0 && now > b.last then
      var more := b.tokens + (now - b.last) as real / c.interval as real;
      if more > c.burst as real then c.burst as real else more
    else b.tokens
  }

  // what is left after a call, and whether the call is allowed
  function Spent(tokens: real, now: int): (Bucket, bool) {
    if tokens >= 1.0 then (Bucket(tokens - 1.0, now), true) else (Bucket(tokens, now), false)
  }

  function Tokens(c: Config, m: Buckets, key: Key, now: int): real {
    if key in m then Refilled(c, m[key], now) else c.burst as real
  }

  // ---- the two limiters ----

  function EvictIdle(c: Config, m: Buckets, now: int): Buckets {
    map k | k in m && now - m[k].last <= c.idleTTL :: m[k]
  }

  // the map a new key finds, swept when it is full
  function Swept(c: Config, m: Buckets, key: Key, now: int): Buckets {
    if key !in m && |m| >= c.maxBuckets then EvictIdle(c, m, now) else m
  }

  predicate FailsOpen(c: Config, m: Buckets, key: Key, now: int) {
    key !in m && |Swept(c, m, key, now)| >= c.maxBuckets
  }

  function Allow(c: Config, m: Buckets, key: Key, now: int): (Buckets, bool) {
    var swept := Swept(c, m, key, now);
    if FailsOpen(c, m, key, now) then (swept, true)
    else
      var (b, ok) := Spent(Tokens(c, m, key, now), now);
      (swept[key := b], ok)
  }

  function AllowForever(c: Config, m: Buckets, key: Key, now: int): (Buckets, bool) {
    var (b, ok) := Spent(Tokens(c, m, key, now), now);
    (m[key := b], ok)
  }

  /** Limiter, with its bucket map updated in place. */
  class Limiter {
    const config: Config
    var buckets: Buckets

    constructor (burst: int, interval: int, idleTTL: int, maxBuckets: int)
      ensures config == Configured(burst, interval, idleTTL, maxBuckets) && buckets == map[]
    {
      config := Configured(burst, interval, idleTTL, maxBuckets);
      buckets := map[];
    }

    method EvictIdleLocked(now: int)
      modifies this
      ensures buckets == EvictIdle(config, old(buckets), now)
    {
      var left := buckets.Keys;
      while left != {}
        invariant left <= old(buckets).Keys
        invariant buckets
               == map k | k in old(buckets) && (k in left || now - old(buckets)[k].last <= config.idleTTL)
                    :: old(buckets)[k]
      {
        var k :| k in left;
        left := left - {k};
        if now - buckets[k].last > config.idleTTL {
          buckets := buckets - {k};
        }
      }
    }

    method AllowRequest(key: Key, now: int) returns (ok: bool)
      modifies this
      ensures (buckets, ok) == Allow(config, old(buckets), key, now)
    {
      var b := Bucket(config.burst as real, now);
      if key !in buckets {
        if |buckets| >= config.maxBuckets { EvictIdleLocked(now); }
        if |buckets| >= config.maxBuckets { return true; }
      } else {
        b := buckets[key];
        if config.interval > 0 && now - b.last > 0 {
          b := b.(tokens := b.tokens + (now - b.last) as real / config.interval as real);
          if b.tokens > config.burst as real { b := b.(tokens := config.burst as real); }
        }
      }
      b := b.(last := now);
      ok := b.tokens >= 1.0;
      if ok { b := b.(tokens := b.tokens - 1.0); }
      buckets := buckets[key := b];
    }

    method Sweep(now: int)
      modifies this
      ensures buckets == EvictIdle(config, old(buckets), now)
    {
      EvictIdleLocked(now);
    }
  }

  /** The assist limiter, whose buckets stay. */
  class RateLimiter {
    const burst: int
    const interval: int
    var buckets: Buckets

    constructor (burst: int, interval: int)
      ensures this.burst == burst && this.interval == interval && buckets == map[]
    {
      this.burst, this.interval := burst, interval;
      buckets := map[];
    }

    method AllowRequest(userId: Key, now: int) returns (ok: bool)
      modifies this
      ensures forall ttl, cap ::
                (buckets, ok) == AllowForever(Config(burst, interval, ttl, cap), old(buckets), userId, now)
    {
      var b := Bucket(burst as real, now);
      if userId in buckets {
        b := buckets[userId];
        if interval > 0 && now - b.last > 0 {
          b := b.(tokens := b.tokens + (now - b.last) as real / interval as real);
          if b.tokens > burst as real { b := b.(tokens := burst as real); }
        }
      }
      b := b.(last := now);
      ok := b.tokens >= 1.0;
      if ok { b := b.(tokens := b.tokens - 1.0); }
      buckets := buckets[userId := b];
    }
  }

  // ---- sequences of calls and sweeps ----

  datatype Event = Call(key: Key, now: int) | Sweep(now: int)

  predicate InOrder(es: seq<Event>) {
    forall i, j :: 0 <= i < j < |es| ==> es[i].now <= es[j].now
  }

  function StepMap(c: Config, m: Buckets, e: Event): Buckets {
    match e
    case Call(key, now) => Allow(c, m, key, now).0
    case Sweep(now) => EvictIdle(c, m, now)
  }

  function StepForever(c: Config, n: Buckets, e: Event): Buckets {
    if e.Call? then AllowForever(c, n, e.key, e.now).0 else n
  }

  /** The answers of the evicting limiter; a sweep answers nothing. */
  function Answers(c: Config, m: Buckets, es: seq<Event>): (r: seq<Option<bool>>)
    ensures |r| == |es|
    decreases |es|
  {
    if es == [] then []
    else [if es[0].Call? then Some(Allow(c, m, es[0].key, es[0].now).1) else None]
         + Answers(c, StepMap(c, m, es[0]), es[1..])
  }

  function AnswersForever(c: Config, n: Buckets, es: seq<Event>): (r: seq<Option<bool>>)
    ensures |r| == |es|
    decreases |es|
  {
    if es == [] then []
    else [if es[0].Call? then Some(AllowForever(c, n, es[0].key, es[0].now).1) else None]
         + AnswersForever(c, StepForever(c, n, es[0]), es[1..])
  }

  function MapAfter(c: Config, m: Buckets, es: seq<Event>): Buckets
    decreases |es|
  {
    if es == [] then m else MapAfter(c, StepMap(c, m, es[0]), es[1..])
  }

  predicate NeverFailsOpen(c: Config, m: Buckets, es: seq<Event>)
    decreases |es|
  {
    es == [] || ((es[0].Call? ==> !FailsOpen(c, m, es[0].key, es[0].now))
                 && NeverFailsOpen(c, StepMap(c, m, es[0]), es[1..]))
  }

  // ---- the map stays bounded ----

  lemma EvictShrinks(c: Config, m: Buckets, now: int)
    ensures |EvictIdle(c, m, now)| <= |m|
  {
    var r := EvictIdle(c, m, now);
    assert r.Keys <= m.Keys;
    SubsetSize(r.Keys, m.Keys);
    assert |r| == |r.Keys| && |m| == |m.Keys|;
  }

  lemma {:induction false} SubsetSize<T>(a: set<T>, b: set<T>)
    requires a <= b
    ensures |a| <= |b|
  {
    if a != {} {
      var x :| x in a;
      SubsetSize(a - {x}, b - {x});
    }
  }

  /** Whatever the calls, sweeps and clock, the map never holds more than maxBuckets keys. */
  lemma {:induction false} MapBounded(c: Config, m: Buckets, es: seq<Event>)
    requires |m| <= c.maxBuckets
    ensures |MapAfter(c, m, es)| <= c.maxBuckets
    decreases |es|
  {
    if es != [] {
      EvictShrinks(c, m, es[0].now);
      if es[0].Call? { AllowBounded(c, m, es[0].key, es[0].now); }
      MapBounded(c, StepMap(c, m, es[0]), es[1..]);
    }
  }

  lemma AllowBounded(c: Config, m: Buckets, key: Key, now: int)
    requires |m| <= c.maxBuckets
    ensures |Allow(c, m, key, now).0| <= c.maxBuckets
  {
    EvictShrinks(c, m, now);
    var swept := Swept(c, m, key, now);
    var next := Allow(c, m, key, now).0;
    if !FailsOpen(c, m, key, now) {
      if key in swept {
        assert next.Keys == swept.Keys;
      } else {
        assert next.Keys == swept.Keys + {key};
      }
      assert |next| == |next.Keys| && |swept| == |swept.Keys|;
    }
  }

  // ---- the same answers ----

  // a bucket holds no more than the burst, and no less than nothing
  predicate Level(c: Config, b: Bucket) {
    b.tokens <= c.burst as real && (b.tokens >= 0.0 || b.tokens == c.burst as real)
  }

  ghost predicate Levels(c: Config, m: Buckets) {
    forall k :: k in m ==> Level(c, m[k])
  }

  /** The evicting map is part of the other, and what it has dropped was idle too long. */
  ghost predicate Evicted(c: Config, m: Buckets, n: Buckets, now: int) {
    (forall k :: k in m ==> k in n && m[k] == n[k])
    && (forall k :: k in n && k !in m ==> now - n[k].last > c.idleTTL)
    && Levels(c, n)
  }

  /** An idle time longer than the TTL fills any bucket, when the TTL is long enough. */
  predicate TTLCovers(c: Config) {
    c.interval > 0 && c.burst * c.interval <= c.idleTTL + 1
  }

  lemma DividedAtLeast(x: int, i: int, n: int)
    requires i > 0 && n * i <= x
    ensures n as real <= x as real / i as real
  {
    assert (n * i) as real == n as real * i as real;
  }

  lemma IdleIsFull(c: Config, b: Bucket, now: int)
    requires TTLCovers(c) && Level(c, b) && now - b.last > c.idleTTL && c.idleTTL >= 0
    ensures Refilled(c, b, now) == c.burst as real
  {
    DividedAtLeast(now - b.last, c.interval, c.burst);
    assert (now - b.last) as real / c.interval as real >= 0.0;
  }

  lemma SpentLevel(c: Config, b: Bucket, now: int)
    requires Level(c, b)
    ensures Level(c, Spent(Refilled(c, b, now), now).0)
  {
    assert now > b.last && c.interval > 0 ==> (now - b.last) as real / c.interval as real >= 0.0;
  }

  lemma CallAgrees(c: Config, m: Buckets, n: Buckets, key: Key, now: int)
    requires TTLCovers(c) && c.idleTTL >= 0 && Evicted(c, m, n, now) && !FailsOpen(c, m, key, now)
    ensures Allow(c, m, key, now).1 == AllowForever(c, n, key, now).1
    ensures Evicted(c, Allow(c, m, key, now).0, AllowForever(c, n, key, now).0, now)
  {
    if key in n {
      SpentLevel(c, n[key], now);
      if key !in m { IdleIsFull(c, n[key], now); }
    } else {
      SpentLevel(c, Bucket(c.burst as real, now), now);
    }
    assert Tokens(c, m, key, now) == Tokens(c, n, key, now);
  }

  lemma EvictedLater(c: Config, m: Buckets, n: Buckets, now: int, later: int)
    requires Evicted(c, m, n, now) && now <= later
    ensures Evicted(c, m, n, later) && Evicted(c, EvictIdle(c, m, later), n, later)
  {
  }

  lemma {:induction false} AgreesFrom(c: Config, m: Buckets, n: Buckets, es: seq<Event>, now: int)
    requires TTLCovers(c) && c.idleTTL >= 0 && Evicted(c, m, n, now) && InOrder(es) && (es != [] ==> now <= es[0].now)
    requires NeverFailsOpen(c, m, es)
    ensures Answers(c, m, es) == AnswersForever(c, n, es)
    decreases |es|
  {
    if es != [] {
      var e := es[0];
      EvictedLater(c, m, n, now, e.now);
      if e.Call? { CallAgrees(c, m, n, e.key, e.now); }
      assert forall i, j :: 0 <= i < j < |es[1..]| ==> es[1..][i] == es[i + 1] && es[1..][j] == es[j + 1];
      AgreesFrom(c, StepMap(c, m, e), StepForever(c, n, e), es[1..], e.now);
    }
  }

  /** With a clock that does not run backwards and no call passed through for lack of room, evicting
      idle buckets at any times changes no answer. */
  lemma SameAnswers(c: Config, es: seq<Event>)
    requires TTLCovers(c) && c.idleTTL >= 0 && InOrder(es) && NeverFailsOpen(c, map[], es)
    ensures Answers(c, map[], es) == AnswersForever(c, map[], es)
  {
    if es != [] { AgreesFrom(c, map[], map[], es, es[0].now); }
  }

  // ---- how many calls are allowed ----

  function Allowed(es: seq<Event>, answers: seq<Option<bool>>, key: Key): nat
    requires |answers| == |es|
  {
    if es == [] then 0
    else (if es[0].Call? && es[0].key == key && answers[0] == Some(true) then 1 else 0)
         + Allowed(es[1..], answers[1..], key)
  }

  function Rate(c: Config, span: int): real
    requires c.interval > 0
  {
    span as real / c.interval as real
  }

  lemma RateAdds(c: Config, x: int, y: int)
    requires c.interval > 0
    ensures Rate(c, x) + Rate(c, y) == Rate(c, x + y)
    ensures x <= y ==> Rate(c, x) <= Rate(c, y)
  {
  }

  // waiting earns at most the elapsed time's tokens
  lemma RefillEarns(c: Config, n: Buckets, key: Key, now: int, later: int)
    requires c.interval > 0 && now <= later && Levels(c, n) && (key in n ==> n[key].last <= now)
    ensures Tokens(c, n, key, later) <= Tokens(c, n, key, now) + Rate(c, later - now)
  {
    if key in n { RateAdds(c, now - n[key].last, later - now); }
  }

  ghost predicate Past(n: Buckets, now: int) {
    forall k :: k in n ==> n[k].last <= now
  }

  // one event pays for what it allows
  lemma EventPays(c: Config, n: Buckets, e: Event, key: Key)
    requires c.interval > 0 && c.burst >= 0 && Levels(c, n) && Past(n, e.now)
    ensures var next := StepForever(c, n, e);
            Levels(c, next) && Past(next, e.now)
            && Tokens(c, next, key, e.now)
               + (if e.Call? && e.key == key && AllowForever(c, n, e.key, e.now).1 then 1.0 else 0.0)
               <= Tokens(c, n, key, e.now)
  {
    if e.Call? {
      if e.key in n { SpentLevel(c, n[e.key], e.now); } else { SpentLevel(c, Bucket(c.burst as real, e.now), e.now); }
    }
  }

  lemma TokensLevel(c: Config, n: Buckets, key: Key, now: int)
    requires c.interval > 0 && c.burst >= 0 && Levels(c, n)
    ensures 0.0 <= Tokens(c, n, key, now) <= c.burst as real
  {
    if key in n && now > n[key].last { assert Rate(c, now - n[key].last) >= 0.0; }
  }

  lemma {:induction false} AllowedFrom(c: Config, n: Buckets, es: seq<Event>, key: Key, now: int, end: int)
    requires c.interval > 0 && c.burst >= 0 && Levels(c, n) && Past(n, now) && now <= end && InOrder(es)
    requires forall i :: 0 <= i < |es| ==> now <= es[i].now <= end
    ensures Allowed(es, AnswersForever(c, n, es), key) as real <= Tokens(c, n, key, now) + Rate(c, end - now)
    decreases |es|
  {
    if es == [] {
      TokensLevel(c, n, key, now);
      assert Rate(c, end - now) >= 0.0;
    } else {
      var e := es[0];
      RefillEarns(c, n, key, now, e.now);
      EventPays(c, n, e, key);
      assert forall i :: 0 <= i < |es[1..]| ==> es[1..][i] == es[i + 1];
      AllowedFrom(c, StepForever(c, n, e), es[1..], key, e.now, end);
      RateAdds(c, e.now - now, end - e.now);
      assert AnswersForever(c, n, es)[1..] == AnswersForever(c, StepForever(c, n, e), es[1..]);
    }
  }

  function ForeverAfter(c: Config, n: Buckets, es: seq<Event>): Buckets
    decreases |es|
  {
    if es == [] then n else ForeverAfter(c, StepForever(c, n, es[0]), es[1..])
  }

  lemma {:induction false} AnswersSplit(c: Config, n: Buckets, es: seq<Event>, k: nat)
    requires k <= |es|
    ensures AnswersForever(c, n, es)[k..] == AnswersForever(c, ForeverAfter(c, n, es[..k]), es[k..])
    decreases |es|
  {
    if k > 0 {
      assert es[..k][1..] == es[1..][..k - 1];
      AnswersSplit(c, StepForever(c, n, es[0]), es[1..], k - 1);
    }
  }

  lemma {:induction false} ForeverLevels(c: Config, n: Buckets, es: seq<Event>, now: int)
    requires c.interval > 0 && c.burst >= 0 && Levels(c, n) && Past(n, now) && InOrder(es)
    requires forall i :: 0 <= i < |es| ==> now <= es[i].now
    ensures Levels(c, ForeverAfter(c, n, es))
    ensures Past(ForeverAfter(c, n, es), if es == [] then now else es[|es| - 1].now)
    decreases |es|
  {
    if es != [] {
      EventPays(c, n, es[0], "");
      assert forall i :: 0 <= i < |es[1..]| ==> es[1..][i] == es[i + 1];
      ForeverLevels(c, StepForever(c, n, es[0]), es[1..], es[0].now);
    }
  }

  lemma {:induction false} AnswersPrefix(c: Config, n: Buckets, es: seq<Event>, k: nat)
    requires k <= |es|
    ensures AnswersForever(c, n, es)[..k] == AnswersForever(c, n, es[..k])
    decreases |es|
  {
    if k > 0 {
      assert es[..k][1..] == es[1..][..k - 1];
      AnswersPrefix(c, StepForever(c, n, es[0]), es[1..], k - 1);
    }
  }

  // any stretch of events within a span
  predicate Within(es: seq<Event>, i: nat, j: nat, span: int) {
    i <= j <= |es| && 0 <= span && (i < j ==> es[j - 1].now - es[i].now <= span)
  }

  lemma WindowAnswers(c: Config, es: seq<Event>, i: nat, j: nat)
    requires i <= j <= |es|
    ensures AnswersForever(c, map[], es)[i..j] == AnswersForever(c, ForeverAfter(c, map[], es[..i]), es[i..j])
  {
    AnswersSplit(c, map[], es, i);
    AnswersPrefix(c, ForeverAfter(c, map[], es[..i]), es[i..], j - i);
    assert es[i..][..j - i] == es[i..j];
    assert AnswersForever(c, map[], es)[i..j] == AnswersForever(c, map[], es)[i..][..j - i];
  }

  /** The never-evicting limiter allows a key at most burst + span / interval calls in any span. */
  lemma WindowBound(c: Config, es: seq<Event>, i: nat, j: nat, span: int, key: Key)
    requires c.interval > 0 && c.burst >= 0 && InOrder(es) && Within(es, i, j, span)
    ensures Allowed(es[i..j], AnswersForever(c, map[], es)[i..j], key) as real <= c.burst as real + Rate(c, span)
  {
    WindowAnswers(c, es, i, j);
    RateAdds(c, 0, span);
    if i < j {
      var n, some, first, end := ForeverAfter(c, map[], es[..i]), es[i..j], es[i].now, es[j - 1].now;
      ForeverLevels(c, map[], es[..i], es[0].now);
      assert forall k :: 0 <= k < |some| ==> some[k] == es[i + k];
      AllowedFrom(c, n, some, key, first, end);
      TokensLevel(c, n, key, first);
      RateAdds(c, end - first, span);
    }
  }

  /** So does the evicting one. */
  lemma EvictingWindowBound(c: Config, es: seq<Event>, i: nat, j: nat, span: int, key: Key)
    requires TTLCovers(c) && c.idleTTL >= 0 && c.burst >= 0 && InOrder(es) && NeverFailsOpen(c, map[], es)
    requires Within(es, i, j, span)
    ensures Allowed(es[i..j], Answers(c, map[], es)[i..j], key) as real <= c.burst as real + Rate(c, span)
  {
    SameAnswers(c, es);
    WindowBound(c, es, i, j, span, key);
  }

  // ---- when the TTL is too short ----

  function Burst(n: nat, key: Key, now: int): (r: seq<Event>)
    ensures |r| == n && forall i :: 0 <= i < n ==> r[i] == Call(key, now)
  {
    seq(n, _ => Call(key, now))
  }

  function AllTrue(n: nat): (r: seq<Option<bool>>)
    ensures |r| == n && forall i :: 0 <= i < n ==> r[i] == Some(true)
  {
    seq(n, _ => Some(true))
  }

  lemma {:induction false} BurstAnswers(c: Config, m: Buckets, key: Key, now: int, n: nat)
    requires n as real <= Tokens(c, m, key, now) && (key in m || |m| < c.maxBuckets)
    ensures Answers(c, m, Burst(n, key, now)) == AllTrue(n) && NeverFailsOpen(c, m, Burst(n, key, now))
    ensures MapAfter(c, m, Burst(n, key, now))
         == if n == 0 then m else m[key := Bucket(Tokens(c, m, key, now) - n as real, now)]
    decreases n
  {
    if n > 0 {
      assert Burst(n, key, now)[1..] == Burst(n - 1, key, now) && AllTrue(n) == [Some(true)] + AllTrue(n - 1);
      BurstAnswers(c, StepMap(c, m, Call(key, now)), key, now, n - 1);
    }
  }

  lemma {:induction false} BurstForever(c: Config, m: Buckets, key: Key, now: int, n: nat)
    requires n as real <= Tokens(c, m, key, now)
    ensures ForeverAfter(c, m, Burst(n, key, now))
         == if n == 0 then m else m[key := Bucket(Tokens(c, m, key, now) - n as real, now)]
    decreases n
  {
    if n > 0 {
      assert Burst(n, key, now)[1..] == Burst(n - 1, key, now);
      BurstForever(c, StepForever(c, m, Call(key, now)), key, now, n - 1);
    }
  }

  lemma {:induction false} AllTrueAllowed(n: nat, key: Key, now: int)
    ensures Allowed(Burst(n, key, now), AllTrue(n), key) == n
  {
    if n > 0 {
      assert Burst(n, key, now)[1..] == Burst(n - 1, key, now) && AllTrue(n)[1..] == AllTrue(n - 1);
      AllTrueAllowed(n - 1, key, now);
    }
  }

  lemma {:induction false} AnswersConcat(c: Config, m: Buckets, es: seq<Event>, ds: seq<Event>)
    ensures Answers(c, m, es + ds) == Answers(c, m, es) + Answers(c, MapAfter(c, m, es), ds)
    ensures NeverFailsOpen(c, m, es + ds) <==> NeverFailsOpen(c, m, es) && NeverFailsOpen(c, MapAfter(c, m, es), ds)
    decreases |es|
  {
    if es == [] {
      assert es + ds == ds;
    } else {
      assert (es + ds)[1..] == es[1..] + ds;
      AnswersConcat(c, StepMap(c, m, es[0]), es[1..], ds);
    }
  }

  lemma {:induction false} ForeverConcat(c: Config, n: Buckets, es: seq<Event>, ds: seq<Event>)
    ensures AnswersForever(c, n, es + ds) == AnswersForever(c, n, es) + AnswersForever(c, ForeverAfter(c, n, es), ds)
    decreases |es|
  {
    if es == [] {
      assert es + ds == ds;
    } else {
      assert (es + ds)[1..] == es[1..] + ds;
      ForeverConcat(c, StepForever(c, n, es[0]), es[1..], ds);
    }
  }

  // a burst, one nanosecond more than the TTL, a sweep, and another burst
  function TwoBursts(c: Config, key: Key): seq<Event>
    requires c.burst >= 0
  {
    (Burst(c.burst, key, 0) + [Sweep(c.idleTTL + 1)]) + Burst(c.burst, key, c.idleTTL + 1)
  }

  lemma EmptyBucket(c: Config, key: Key, b: nat)
    requires c.burst == b && b > 0 && c.maxBuckets >= 1 && c.idleTTL >= 0
    ensures NeverFailsOpen(c, map[], Burst(b, key, 0) + [Sweep(c.idleTTL + 1)])
    ensures MapAfter(c, map[], Burst(b, key, 0) + [Sweep(c.idleTTL + 1)]) == map[]
    ensures ForeverAfter(c, map[], Burst(b, key, 0) + [Sweep(c.idleTTL + 1)]) == map[key := Bucket(0.0, 0)]
  {
    var e := [Sweep(c.idleTTL + 1)];
    assert e[1..] == [];
    BurstAnswers(c, map[], key, 0, b);
    BurstForever(c, map[], key, 0, b);
    AnswersConcat(c, map[], Burst(b, key, 0), e);
    MapAfterConcat(c, map[], Burst(b, key, 0), e);
    var m: Buckets := map[key := Bucket(0.0, 0)];
    assert MapAfter(c, m, e) == MapAfter(c, EvictIdle(c, m, c.idleTTL + 1), e[1..]);
    assert EvictIdle(c, m, c.idleTTL + 1) == map[];
    assert ForeverAfter(c, m, e) == ForeverAfter(c, m, e[1..]);
    assert NeverFailsOpen(c, EvictIdle(c, m, c.idleTTL + 1), e[1..]);
  }

  lemma {:induction false} MapAfterConcat(c: Config, m: Buckets, es: seq<Event>, ds: seq<Event>)
    ensures MapAfter(c, m, es + ds) == MapAfter(c, MapAfter(c, m, es), ds)
    ensures ForeverAfter(c, m, es + ds) == ForeverAfter(c, ForeverAfter(c, m, es), ds)
    decreases |es|
  {
    if es == [] {
      assert es + ds == ds;
    } else {
      assert (es + ds)[1..] == es[1..] + ds;
      MapAfterConcat(c, StepMap(c, m, es[0]), es[1..], ds);
      MapAfterConcat(c, StepForever(c, m, es[0]), es[1..], ds);
    }
  }

  // the second burst: all of it against a new bucket, less against one not yet full
  lemma LateBurstDiffers(c: Config, key: Key, b: nat, t: int)
    requires c.interval > 0 && c.burst == b && b > 0 && c.maxBuckets >= 1 && 0 <= t < c.burst * c.interval
    ensures Answers(c, map[], Burst(b, key, t)) != AnswersForever(c, map[key := Bucket(0.0, 0)], Burst(b, key, t))
    ensures NeverFailsOpen(c, map[], Burst(b, key, t))
  {
    var n: Buckets := map[key := Bucket(0.0, 0)];
    BurstAnswers(c, map[], key, t, b);
    AllTrueAllowed(b, key, t);
    AllowedFrom(c, n, Burst(b, key, t), key, t, t);
    LessThan(t, c.interval, b);
    assert Rate(c, 0) == 0.0;
  }

  lemma TailsDiffer<T>(a: seq<T>, b: seq<T>, x: seq<T>, y: seq<T>)
    requires |a| == |b| && x != y
    ensures a + x != b + y
  {
    assert (a + x)[|a|..] == x && (b + y)[|b|..] == y;
  }

  lemma BurstsInOrder(c: Config, key: Key)
    requires c.burst >= 0 && c.idleTTL >= 0
    ensures InOrder(TwoBursts(c, key))
  {
    var es := TwoBursts(c, key);
    assert forall i :: 0 <= i < |es| ==> es[i].now == if i < c.burst then 0 else c.idleTTL + 1;
  }

  /** A TTL too short to refill a burst makes the limiters differ. */
  lemma ShortTTLDiffers(c: Config, key: Key)
    requires c.interval > 0 && c.burst > 0 && c.maxBuckets >= 1 && c.idleTTL >= 0
    requires c.burst * c.interval > c.idleTTL + 1
    ensures InOrder(TwoBursts(c, key)) && NeverFailsOpen(c, map[], TwoBursts(c, key))
    ensures Answers(c, map[], TwoBursts(c, key)) != AnswersForever(c, map[], TwoBursts(c, key))
  {
    var t := c.idleTTL + 1;
    var early, late := Burst(c.burst, key, 0) + [Sweep(t)], Burst(c.burst, key, t);
    BurstsInOrder(c, key);
    EmptyBucket(c, key, c.burst);
    LateBurstDiffers(c, key, c.burst, t);
    AnswersConcat(c, map[], early, late);
    ForeverConcat(c, map[], early, late);
    TailsDiffer(Answers(c, map[], early), AnswersForever(c, map[], early),
                Answers(c, map[], late), AnswersForever(c, map[key := Bucket(0.0, 0)], late));
  }

  lemma LessThan(x: int, i: int, n: int)
    requires i > 0 && n * i > x
    ensures x as real / i as real < n as real
  {
    assert (n * i) as real == n as real * i as real;
  }

  /** The two limiters answer every in-order sequence that never fails open alike if and only if the
      TTL covers the time a full burst takes to refill, less one nanosecond. */
  lemma SameAnswersIff(c: Config)
    requires c.interval > 0 && c.burst > 0 && c.maxBuckets >= 1 && c.idleTTL >= 0
    ensures (forall es :: InOrder(es) && NeverFailsOpen(c, map[], es) ==>
               Answers(c, map[], es) == AnswersForever(c, map[], es))
       <==> c.burst * c.interval <= c.idleTTL + 1
  {
    if c.burst * c.interval <= c.idleTTL + 1 {
      forall es | InOrder(es) && NeverFailsOpen(c, map[], es)
        ensures Answers(c, map[], es) == AnswersForever(c, map[], es)
      {
        SameAnswers(c, es);
      }
    } else {
      ShortTTLDiffers(c, "k");
    }
  }
}
