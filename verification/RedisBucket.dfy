/** The distributed limiter: the token bucket as the Lua script of internal/ratelimit/redis.go
    runs it, on hashes that Redis expires. Its clock counts milliseconds. */
module RedisBucket {
  import opened TokenBucket

  datatype Entry = Entry(tokens: real, ts: int, expires: int)

  function Max(x: int, y: int): int {
    if x < y then y else x
  }

  function Ceil(x: real): int {
    -((0.0 - x).Floor)
  }

  function TtlSeconds(c: Config): int {
    if c.rate > 0.0 then Ceil(c.burst / c.rate) + 1 else 60
  }

  predicate Live(db: map<string, Entry>, key: string, now: int) {
    key in db && now < db[key].expires
  }

  /** One run of the limiter: an expired hash reads as absent. */
  function RedisAllowed(c: Config, db: map<string, Entry>, e: Event): (map<string, Entry>, bool) {
    if c.rate <= 0.0 then (db, true)
    else
      var (tokens, ts) := if Live(db, e.key, e.now) then (db[e.key].tokens, db[e.key].ts) else (c.burst, e.now);
      var delta := Max(0, e.now - ts) as real / 1000.0;
      var filled := if tokens + delta * c.rate < c.burst then tokens + delta * c.rate else c.burst;
      var left := if filled >= 1.0 then filled - 1.0 else filled;
      (db[e.key := Entry(left, e.now, e.now + 1000 * TtlSeconds(c))], filled >= 1.0)
  }

  /** The limiter over the one Redis hash space its prefix names. */
  class RedisLimiter {
    const config: Config
    var db: map<string, Entry>

    constructor (rate: real, burst: int)
      ensures config.rate == rate && config.burst == (if burst >= 1 then burst as real else 1.0) && db == map[]
    {
      config := Config(rate, ClampBurst(burst));
      db := map[];
    }

    method Allow(key: string, now: int) returns (ok: bool)
      modifies this
      ensures (db, ok) == RedisAllowed(config, old(db), Event(key, now))
    {
      if config.rate <= 0.0 {
        return true;
      }
      var tokens, ts := config.burst, now;
      if Live(db, key, now) {
        tokens, ts := db[key].tokens, db[key].ts;
      }
      var delta := Max(0, now - ts) as real / 1000.0;
      tokens := if tokens + delta * config.rate < config.burst then tokens + delta * config.rate else config.burst;
      ok := false;
      if tokens >= 1.0 {
        tokens := tokens - 1.0;
        ok := true;
      }
      var ttl := 60;
      if config.rate > 0.0 {
        ttl := Ceil(config.burst / config.rate) + 1;
      }
      db := db[key := Entry(tokens, now, now + 1000 * ttl)];
    }
  }

  // ---- Agreement -----------------------------------------------------------------

  function RedisAfter(c: Config, es: seq<Event>, n: nat): map<string, Entry>
    requires n <= |es|
  {
    if n == 0 then map[] else RedisAllowed(c, RedisAfter(c, es, n - 1), es[n - 1]).0
  }

  predicate RedisDecision(c: Config, es: seq<Event>, n: nat)
    requires n < |es|
  {
    RedisAllowed(c, RedisAfter(c, es, n), es[n]).1
  }

  /** The same readings of the shared clock, in nanoseconds. */
  function Nanos(es: seq<Event>): (r: seq<Event>)
    ensures Ordered(es) ==> Ordered(r)
  {
    seq(|es|, i requires 0 <= i < |es| => Event(es[i].key, es[i].now * MILLI))
  }

  function AsBucket(e: Entry): Bucket {
    Bucket(e.tokens, e.ts * MILLI)
  }

  /** The hashes still alive at `now`, as buckets of the in-process limiter. */
  function LiveBuckets(db: map<string, Entry>, now: int): map<string, Bucket> {
    map k | k in db && now < db[k].expires :: AsBucket(db[k])
  }

  /** Every hash outlives the time it takes to refill, so expiry only drops full ones. */
  ghost predicate LongLived(c: Config, db: map<string, Entry>) {
    forall k :: k in db ==> db[k].tokens >= 0.0 && db[k].expires == db[k].ts + 1000 * TtlSeconds(c)
  }

  lemma ExpiredIsFull(c: Config, e: Entry, now: int)
    requires c.rate > 0.0 && e.tokens >= 0.0
    requires e.expires == e.ts + 1000 * TtlSeconds(c) && e.expires <= now
    ensures Full(c, AsBucket(e), now * MILLI)
  {
  }

  /** One script run takes from the live hash exactly what Take takes from its bucket; a clock
      that has gone back refills nothing. */
  lemma ScriptTakes(c: Config, db: map<string, Entry>, e: Event)
    requires c.rate > 0.0
    ensures var (db', ok) := RedisAllowed(c, db, e);
            var now := e.now * MILLI;
            var b := Lookup(c, LiveBuckets(db, e.now), e.key, now);
            && e.key in db' && db' == db[e.key := db'[e.key]]
            && (AsBucket(db'[e.key]), ok) == Take(c, if now < b.last then b.(last := now) else b, now)
            && db'[e.key].ts == e.now && db'[e.key].expires == e.now + 1000 * TtlSeconds(c)
  {
  }

  /** The hash lives for whole seconds: those an empty bucket needs to refill, rounded up, and
      one more. */
  lemma ScriptExpires(c: Config, db: map<string, Entry>, e: Event)
    requires c.rate > 0.0
    ensures var life := RedisAllowed(c, db, e).0[e.key].expires - e.now;
            life % 1000 == 0 && c.burst / c.rate + 1.0 <= (life / 1000) as real < c.burst / c.rate + 2.0
  {
    assert c.burst / c.rate <= Ceil(c.burst / c.rate) as real < c.burst / c.rate + 1.0;
  }

  /** The simulation relation between the hashes and the buckets of the limiter that never
      forgets, for every later reading of the clock. */
  ghost predicate Tracks(c: Config, db: map<string, Entry>, all: map<string, Bucket>, t: int) {
    && LongLived(c, db)
    && Sane(c, all, t * MILLI)
    && ForgetsOnlyFull(c, map k | k in db :: AsBucket(db[k]), all, t * MILLI)
  }

  lemma ExpiryForgetsOnlyFull(c: Config, db: map<string, Entry>, all: map<string, Bucket>, t: int, now: int)
    requires c.rate > 0.0 && t <= now && Tracks(c, db, all, t)
    ensures ForgetsOnlyFull(c, LiveBuckets(db, now), all, now * MILLI)
  {
    var kept := map k | k in db :: AsBucket(db[k]);
    forall k | k in all && k !in LiveBuckets(db, now)
      ensures Full(c, all[k], now * MILLI)
    {
      if k in kept {
        ExpiredIsFull(c, db[k], now);
      } else {
        StaysFull(c, all[k], t * MILLI, now * MILLI);
      }
    }
    forall k | k in LiveBuckets(db, now)
      ensures k in all && LiveBuckets(db, now)[k] == all[k]
    {
      assert k in kept;
    }
  }

  lemma RedisStep(c: Config, db: map<string, Entry>, ideal: Memory, e: Event, t: int)
    requires c.rate > 0.0 && c.burst >= 1.0 && t <= e.now && Tracks(c, db, ideal.buckets, t)
    ensures var (db', ok) := RedisAllowed(c, db, e);
            var (ideal', ok') := Allowed(c, false, ideal, Event(e.key, e.now * MILLI));
            ok == ok' && Tracks(c, db', ideal'.buckets, e.now)
  {
    var now := e.now * MILLI;
    var kept := map k | k in db :: AsBucket(db[k]);
    assert e.key in db ==> e.key in kept;
    ExpiryForgetsOnlyFull(c, db, ideal.buckets, t, e.now);
    ScriptTakes(c, db, e);
    ForgetfulStep(c, LiveBuckets(db, e.now), ideal.buckets, e.key, now, now);
    ForgetfulStep(c, kept, ideal.buckets, e.key, t * MILLI, now);
    var db' := RedisAllowed(c, db, e).0;
    assert (map k | k in db' :: AsBucket(db'[k])) == kept[e.key := AsBucket(db'[e.key])];
  }

  lemma {:induction false} RedisRefines(c: Config, ideal: Memory, es: seq<Event>, n: nat)
    requires c.rate > 0.0 && c.burst >= 1.0 && n <= |es| && Ordered(es) && ideal.buckets == map[]
    ensures forall t :: (n > 0 ==> t == es[n - 1].now)
                        ==> Tracks(c, RedisAfter(c, es, n), After(c, false, ideal, Nanos(es), n).buckets, t)
    ensures n < |es| ==> (RedisDecision(c, es, n) <==> Decision(c, false, ideal, Nanos(es), n))
  {
    if n > 0 {
      RedisRefines(c, ideal, es, n - 1);
      var t := if n == 1 then es[0].now else es[n - 2].now;
      RedisStep(c, RedisAfter(c, es, n - 1), After(c, false, ideal, Nanos(es), n - 1), es[n - 1], t);
    }
    if n < |es| {
      var t := if n == 0 then es[0].now else es[n - 1].now;
      assert Tracks(c, RedisAfter(c, es, n), After(c, false, ideal, Nanos(es), n).buckets, t);
      RedisStep(c, RedisAfter(c, es, n), After(c, false, ideal, Nanos(es), n), es[n], t);
    }
  }

  /** On nondecreasing readings of one clock, the sweeping limiter, the expiring Redis
      limiter and a limiter that never forgets a key decide every event alike. */
  lemma LimitersAgree(c: Config, swept: Memory, ideal: Memory, es: seq<Event>, n: nat)
    requires c.burst >= 1.0 && n < |es| && Ordered(es)
    requires swept.buckets == ideal.buckets == map[]
    ensures Decision(c, true, swept, Nanos(es), n) <==> Decision(c, false, ideal, Nanos(es), n)
    ensures RedisDecision(c, es, n) <==> Decision(c, false, ideal, Nanos(es), n)
  {
    if c.rate > 0.0 {
      SweepRefines(c, swept, ideal, Nanos(es), n);
      RedisRefines(c, ideal, es, n);
    }
  }

  lemma {:induction false} SameGrants(c: Config, swept: Memory, ideal: Memory, es: seq<Event>, key: string, lo: nat,
                                      hi: nat)
    requires c.burst >= 1.0 && c.rate > 0.0 && lo <= hi <= |es| && Ordered(es)
    requires swept.buckets == ideal.buckets == map[]
    ensures Granted(c, true, swept, es, key, lo, hi) == Granted(c, false, ideal, es, key, lo, hi)
    decreases hi - lo
  {
    if lo < hi {
      SameGrants(c, swept, ideal, es, key, lo, hi - 1);
      SweepRefines(c, swept, ideal, es, hi - 1);
    }
  }

  /** Hence on a nondecreasing clock the rate bound needs no condition on sweeps. */
  lemma RateBoundAcrossSweeps(c: Config, swept: Memory, es: seq<Event>, key: string, i: nat, j: nat)
    requires c.burst >= 1.0 && c.rate > 0.0 && i <= j < |es| && Ordered(es) && swept.buckets == map[]
    requires es[i].key == es[j].key == key
    requires Decision(c, true, swept, es, i) && Decision(c, true, swept, es, j)
    ensures Granted(c, true, swept, es, key, i, j + 1) as real
            <= Allowance(c, es[i].now, es[j].now)
  {
    SweepRefines(c, swept, swept, es, i);
    SweepRefines(c, swept, swept, es, j);
    SameGrants(c, swept, swept, es, key, i, j + 1);
    RateBound(c, false, swept, es, key, i, j);
  }
}
