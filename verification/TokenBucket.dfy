/** The token bucket of internal/ratelimit: one bucket per key, refilled continuously at
    `rate` tokens a second up to `burst`, kept by two garbage collectors (the in-process
    sweep and the Redis TTL) that must not change any decision. Tokens are reals; the
    in-process clock counts nanoseconds and the Redis clock milliseconds. */
module TokenBucket {

  const SECOND := 1_000_000_000
  const MINUTE := 60 * SECOND
  const MILLI := 1_000_000

  datatype Bucket = Bucket(tokens: real, last: int)

  /** What a limiter is built with. `burst` is already clamped to at least one. */
  datatype Config = Config(rate: real, burst: real)

  /** The in-process limiter's state. */
  datatype Memory = Memory(buckets: map<string, Bucket>, lastSweep: int)

  datatype Event = Event(key: string, now: int)

  function ClampBurst(burst: int): (r: real)
    ensures r >= 1.0
  {
    if burst < 1 then 1.0 else burst as real
  }

  function Seconds(ns: int): real {
    ns as real / SECOND as real
  }

  // ---- One bucket ----------------------------------------------------------------

  function Refilled(c: Config, b: Bucket, now: int): real {
    var t := b.tokens + Seconds(now - b.last) * c.rate;
    if t > c.burst then c.burst else t
  }

  /** Refill to `now`, then take one token if a whole one is there. */
  function Take(c: Config, b: Bucket, now: int): (Bucket, bool) {
    var t := Refilled(c, b, now);
    if t < 1.0 then (Bucket(t, now), false) else (Bucket(t - 1.0, now), true)
  }

  // ---- The in-process limiter, as a function of its state --------------------------

  function MaxIdle(c: Config): int {
    var full := if c.rate > 0.0 then (c.burst / c.rate * SECOND as real).Floor else 0;
    if full > MINUTE then full else MINUTE
  }

  function Swept(c: Config, m: Memory, now: int): Memory {
    if now - m.lastSweep < MINUTE then m
    else Memory(map k | k in m.buckets && now - m.buckets[k].last <= MaxIdle(c) :: m.buckets[k], now)
  }

  function Kept(c: Config, sweeping: bool, m: Memory, now: int): Memory {
    if sweeping then Swept(c, m, now) else m
  }

  /** A key's bucket, or the full one it would get on first use. */
  function Lookup(c: Config, m: map<string, Bucket>, key: string, now: int): Bucket {
    if key in m then m[key] else Bucket(c.burst, now)
  }

  /** One Allow: `sweeping` is the program; without it, the limiter that never forgets a key. */
  function Allowed(c: Config, sweeping: bool, m: Memory, e: Event): (Memory, bool) {
    if c.rate <= 0.0 then (m, true)
    else
      var m1 := Kept(c, sweeping, m, e.now);
      var (b, ok) := Take(c, Lookup(c, m1.buckets, e.key, e.now), e.now);
      (m1.(buckets := m1.buckets[e.key := b]), ok)
  }

  /** newMemoryLimiter and its two methods. The bucket records are values in the map. */
  class MemoryLimiter {
    const config: Config
    var buckets: map<string, Bucket>
    var lastSweep: int

    constructor (rate: real, burst: int, now: int)
      ensures config.rate == rate && config.burst == (if burst >= 1 then burst as real else 1.0)
      ensures View() == Memory(map[], now)
    {
      config := Config(rate, ClampBurst(burst));
      buckets := map[];
      lastSweep := now;
    }

    function View(): Memory
      reads this
    {
      Memory(buckets, lastSweep)
    }

    method Allow(key: string, now: int) returns (ok: bool)
      modifies this
      ensures (View(), ok) == Allowed(config, true, old(View()), Event(key, now))
    {
      if config.rate <= 0.0 {
        return true;
      }
      Sweep(now);
      ghost var kept := Swept(config, old(View()), now);
      ghost var found := Lookup(config, kept.buckets, key, now);
      if key !in buckets {
        buckets := buckets[key := Bucket(config.burst, now)];
      }
      var b := buckets[key];
      b := b.(tokens := b.tokens + Seconds(now - b.last) * config.rate);
      if b.tokens > config.burst {
        b := b.(tokens := config.burst);
      }
      b := b.(last := now);
      assert b.tokens == Refilled(config, found, now);
      ok := !(b.tokens < 1.0);
      if ok {
        b := b.(tokens := b.tokens - 1.0);
      }
      assert (b, ok) == Take(config, found, now);
      buckets := buckets[key := b];
      assert buckets == kept.buckets[key := b];
    }

    method Sweep(now: int)
      modifies this
      ensures View() == Swept(config, old(View()), now)
    {
      if now - lastSweep < MINUTE {
        return;
      }
      lastSweep := now;
      var maxIdle := MINUTE;
      if config.rate > 0.0 {
        var full := (config.burst / config.rate * SECOND as real).Floor;
        if full > maxIdle {
          maxIdle := full;
        }
      }
      var todo := buckets.Keys;
      while todo != {}
        invariant lastSweep == now
        invariant todo <= old(buckets).Keys
        invariant forall k :: k in buckets <==>
                              k in old(buckets) && (k in todo || now - old(buckets)[k].last <= maxIdle)
        invariant forall k :: k in buckets ==> buckets[k] == old(buckets)[k]
        decreases todo
      {
        var k :| k in todo;
        todo := todo - {k};
        if now - buckets[k].last > maxIdle {
          buckets := map j | j in buckets && j != k :: buckets[j];
        }
      }
      assert buckets == Swept(config, old(View()), now).buckets;
    }
  }

  // ---- Runs ----------------------------------------------------------------------

  function After(c: Config, sweeping: bool, m: Memory, es: seq<Event>, n: nat): Memory
    requires n <= |es|
  {
    if n == 0 then m else Allowed(c, sweeping, After(c, sweeping, m, es, n - 1), es[n - 1]).0
  }

  predicate Decision(c: Config, sweeping: bool, m: Memory, es: seq<Event>, n: nat)
    requires n < |es|
  {
    Allowed(c, sweeping, After(c, sweeping, m, es, n), es[n]).1
  }

  /** Events lo..hi (exclusive) for `key` that were let through. */
  function Granted(c: Config, sweeping: bool, m: Memory, es: seq<Event>, key: string, lo: nat, hi: nat): nat
    requires lo <= hi <= |es|
    decreases hi - lo
  {
    if lo == hi then 0
    else Granted(c, sweeping, m, es, key, lo, hi - 1)
         + if es[hi - 1].key == key && Decision(c, sweeping, m, es, hi - 1) then 1 else 0
  }

  /** No sweep at events lo..hi (inclusive hi, exclusive lo) dropped the key's bucket. */
  ghost predicate NeverSwept(c: Config, m: Memory, es: seq<Event>, key: string, lo: nat, hi: nat)
    requires lo <= hi < |es|
  {
    forall n :: lo < n <= hi ==> key in Swept(c, After(c, true, m, es, n), es[n].now).buckets
  }

  // ---- The rate bound ------------------------------------------------------------

  function Refill(c: Config, now: int): real {
    Seconds(now) * c.rate
  }

  /** What the limit promises for a window of the clock: the burst and the refill. */
  function Allowance(c: Config, from: int, to: int): real {
    c.burst + Seconds(to - from) * c.rate
  }

  function Potential(c: Config, b: Bucket): real {
    b.tokens - Refill(c, b.last)
  }

  /** What one Allow does to the bucket map: only the event's key changes, and its potential
      falls by what was granted. */
  lemma AllowSpendsPotential(c: Config, sweeping: bool, m: Memory, e: Event)
    requires c.rate > 0.0
    ensures var (m', ok) := Allowed(c, sweeping, m, e);
            var kept := Kept(c, sweeping, m, e.now).buckets;
            && e.key in m'.buckets
            && Potential(c, m'.buckets[e.key])
               <= Potential(c, Lookup(c, kept, e.key, e.now)) - (if ok then 1.0 else 0.0)
            && (ok ==> Potential(c, m'.buckets[e.key]) <= c.burst - 1.0 - Refill(c, e.now))
            && (ok ==> Potential(c, m'.buckets[e.key]) >= 0.0 - Refill(c, e.now))
            && (forall k :: k != e.key && k in kept ==> k in m'.buckets && m'.buckets[k] == kept[k])
  {
  }

  lemma {:induction false} PotentialFalls(c: Config, sweeping: bool, m: Memory, es: seq<Event>, key: string, i: nat,
                                          j: nat)
    requires c.rate > 0.0 && i <= j < |es|
    requires es[i].key == key && Decision(c, sweeping, m, es, i)
    requires sweeping ==> NeverSwept(c, m, es, key, i, j)
    ensures key in After(c, sweeping, m, es, j + 1).buckets
    ensures Potential(c, After(c, sweeping, m, es, j + 1).buckets[key])
            <= c.burst - Refill(c, es[i].now) - Granted(c, sweeping, m, es, key, i, j + 1) as real
    decreases j
  {
    AllowSpendsPotential(c, sweeping, After(c, sweeping, m, es, j), es[j]);
    if i == j {
      assert Granted(c, sweeping, m, es, key, i, i) == 0;
      assert Granted(c, sweeping, m, es, key, i, i + 1) == 1;
    } else {
      PotentialFalls(c, sweeping, m, es, key, i, j - 1);
      PotentialKept(c, sweeping, After(c, sweeping, m, es, j), es[j], key);
    }
  }

  lemma PotentialKept(c: Config, sweeping: bool, m: Memory, e: Event, key: string)
    requires c.rate > 0.0 && key in m.buckets && key in Kept(c, sweeping, m, e.now).buckets
    ensures var (m', ok) := Allowed(c, sweeping, m, e);
            && key in m'.buckets
            && Potential(c, m'.buckets[key])
               <= Potential(c, m.buckets[key]) - (if ok && e.key == key then 1.0 else 0.0)
  {
    AllowSpendsPotential(c, sweeping, m, e);
  }

  lemma AllowanceIsRefills(c: Config, from: int, to: int)
    ensures Allowance(c, from, to) == c.burst + Refill(c, to) - Refill(c, from)
  {
  }

  lemma RefillsBoundGrants(c: Config, sweeping: bool, m: Memory, es: seq<Event>, key: string, i: nat, j: nat)
    requires c.rate > 0.0 && i <= j < |es|
    requires es[i].key == es[j].key == key
    requires Decision(c, sweeping, m, es, i) && Decision(c, sweeping, m, es, j)
    requires sweeping ==> NeverSwept(c, m, es, key, i, j)
    ensures Granted(c, sweeping, m, es, key, i, j + 1) as real
            <= c.burst + Refill(c, es[j].now) - Refill(c, es[i].now)
  {
    PotentialFalls(c, sweeping, m, es, key, i, j);
    GrantLeavesTokens(c, sweeping, After(c, sweeping, m, es, j), es[j]);
  }

  /** Between two grants of one key, as long as its bucket is not swept in between, the
      number of grants is bounded by the burst plus what the clock difference refills. The
      clock readings may arrive in any order. */
  lemma RateBound(c: Config, sweeping: bool, m: Memory, es: seq<Event>, key: string, i: nat, j: nat)
    requires c.rate > 0.0 && i <= j < |es|
    requires es[i].key == es[j].key == key
    requires Decision(c, sweeping, m, es, i) && Decision(c, sweeping, m, es, j)
    requires sweeping ==> NeverSwept(c, m, es, key, i, j)
    ensures Granted(c, sweeping, m, es, key, i, j + 1) as real
            <= Allowance(c, es[i].now, es[j].now)
  {
    RefillsBoundGrants(c, sweeping, m, es, key, i, j);
    AllowanceIsRefills(c, es[i].now, es[j].now);
  }

  lemma GrantLeavesTokens(c: Config, sweeping: bool, m: Memory, e: Event)
    requires c.rate > 0.0 && Allowed(c, sweeping, m, e).1
    ensures e.key in Allowed(c, sweeping, m, e).0.buckets
    ensures Potential(c, Allowed(c, sweeping, m, e).0.buckets[e.key]) >= 0.0 - Refill(c, e.now)
  {
  }

  /** The window that explains a bucket's fill: it was full at event i, and has since paid
      for exactly the grants counted from there. */
  ghost predicate Explains(c: Config, m: Memory, es: seq<Event>, key: string, i: nat, n: nat)
    requires n <= |es|
  {
    && i < n && es[i].key == key && Decision(c, false, m, es, i)
    && key in After(c, false, m, es, n).buckets
    && Potential(c, After(c, false, m, es, n).buckets[key])
       == c.burst - Refill(c, es[i].now) - Granted(c, false, m, es, key, i, n) as real
  }

  lemma {:induction false} Explanation(c: Config, m: Memory, es: seq<Event>, key: string, n: nat) returns (i: nat)
    requires c.rate > 0.0 && c.burst >= 1.0 && n <= |es| && m.buckets == map[]
    requires key in After(c, false, m, es, n).buckets
    ensures Explains(c, m, es, key, i, n)
  {
    var before := After(c, false, m, es, n - 1);
    var e := es[n - 1];
    if e.key != key {
      i := Explanation(c, m, es, key, n - 1);
    } else {
      TakeMovesPotential(c, Lookup(c, before.buckets, key, e.now), e.now);
      assert Granted(c, false, m, es, key, n - 1, n - 1) == 0;
      if key !in before.buckets || Refilled(c, before.buckets[key], e.now) == c.burst {
        i := n - 1;
      } else {
        i := Explanation(c, m, es, key, n - 1);
      }
    }
  }

  /** A take either starts from a full bucket or moves the potential by its grant alone; it
      fails only when potential and clock leave less than one token. */
  lemma TakeMovesPotential(c: Config, b: Bucket, now: int)
    requires c.burst >= 1.0
    ensures var (b', ok) := Take(c, b, now);
            if Refilled(c, b, now) == c.burst
            then ok && Potential(c, b') == c.burst - Refill(c, now) - 1.0
            else Potential(c, b') == Potential(c, b) - (if ok then 1.0 else 0.0)
                 && (!ok ==> Potential(c, b) + Refill(c, now) < 1.0)
    ensures b == Bucket(c.burst, now) ==> Refilled(c, b, now) == c.burst
  {
  }

  /** Exactly when the limiter that never forgets grants an event: when no window opened by
      an earlier grant of the same key would then hold more than burst plus refill. */
  lemma GrantedExactlyWithinTheBound(c: Config, m: Memory, es: seq<Event>, j: nat)
    requires c.rate > 0.0 && c.burst >= 1.0 && j < |es| && m.buckets == map[]
    ensures Decision(c, false, m, es, j) <==>
            forall i :: 0 <= i < j && es[i].key == es[j].key && Decision(c, false, m, es, i)
              ==> Granted(c, false, m, es, es[j].key, i, j) as real + 1.0
                  <= Allowance(c, es[i].now, es[j].now)
  {
    var key := es[j].key;
    if Decision(c, false, m, es, j) {
      forall i | 0 <= i < j && es[i].key == key && Decision(c, false, m, es, i)
        ensures Granted(c, false, m, es, key, i, j) as real + 1.0
                <= Allowance(c, es[i].now, es[j].now)
      {
        RateBound(c, false, m, es, key, i, j);
      }
    } else {
      var i := DenialExceedsTheBound(c, m, es, j);
    }
  }

  lemma DenialExceedsTheBound(c: Config, m: Memory, es: seq<Event>, j: nat) returns (i: nat)
    requires c.rate > 0.0 && c.burst >= 1.0 && j < |es| && m.buckets == map[]
    requires !Decision(c, false, m, es, j)
    ensures i < j && es[i].key == es[j].key && Decision(c, false, m, es, i)
    ensures Granted(c, false, m, es, es[j].key, i, j) as real + 1.0
            > Allowance(c, es[i].now, es[j].now)
  {
    var key := es[j].key;
    i := DenialExplained(c, m, es, j);
    Overspent(c, es[i].now, es[j].now, Potential(c, After(c, false, m, es, j).buckets[key]),
              Granted(c, false, m, es, key, i, j));
  }

  lemma DenialExplained(c: Config, m: Memory, es: seq<Event>, j: nat) returns (i: nat)
    requires c.rate > 0.0 && c.burst >= 1.0 && j < |es| && m.buckets == map[]
    requires !Decision(c, false, m, es, j)
    ensures Explains(c, m, es, es[j].key, i, j)
    ensures Potential(c, After(c, false, m, es, j).buckets[es[j].key]) + Refill(c, es[j].now) < 1.0
  {
    var before := After(c, false, m, es, j).buckets;
    TakeMovesPotential(c, Lookup(c, before, es[j].key, es[j].now), es[j].now);
    i := Explanation(c, m, es, es[j].key, j);
  }

  lemma Overspent(c: Config, from: int, to: int, potential: real, granted: nat)
    requires potential + Refill(c, to) < 1.0
    requires potential == c.burst - Refill(c, from) - granted as real
    ensures granted as real + 1.0 > Allowance(c, from, to)
  {
  }

  // ---- Forgetting a full bucket changes nothing --------------------------------------

  ghost predicate Full(c: Config, b: Bucket, now: int) {
    b.tokens + Seconds(now - b.last) * c.rate >= c.burst
  }

  ghost predicate Ordered(es: seq<Event>) {
    forall i, j :: 0 <= i < j < |es| ==> es[i].now <= es[j].now
  }

  lemma StaysFull(c: Config, b: Bucket, now: int, later: int)
    requires c.rate > 0.0 && now <= later && Full(c, b, now)
    ensures Full(c, b, later)
  {
  }

  /** Longer idle than burst over rate, in seconds, is full again. */
  lemma IdleIsFull(c: Config, b: Bucket, now: int)
    requires c.rate > 0.0 && b.tokens >= 0.0
    requires Seconds(now - b.last) >= c.burst / c.rate
    ensures Full(c, b, now)
  {
  }

  /** A sweep, at most once a minute, drops exactly the buckets idle for more than a minute and for
      more than an empty one needs to refill. */
  lemma SweepDropsExactly(c: Config, m: Memory, now: int, key: string)
    requires c.rate > 0.0 && key in m.buckets
    ensures var idle := (now - m.buckets[key].last) as real / 1_000_000_000.0;
            key in Swept(c, m, now).buckets
            <==> now - m.lastSweep < 60_000_000_000 || idle <= 60.0 || idle <= c.burst / c.rate
    ensures Swept(c, m, now).lastSweep == if now - m.lastSweep < 60_000_000_000 then m.lastSweep else now
  {
    var full := c.burst / c.rate * SECOND as real;
    var idle := now - m.buckets[key].last;
    assert idle <= full.Floor <==> idle as real <= full;
    assert idle as real <= full <==> idle as real / SECOND as real <= c.burst / c.rate;
  }

  /** A bucket the sweep drops is full: MaxIdle rounds burst over rate down, but the idle
      time is a whole number of nanoseconds strictly above it. */
  lemma SweptIsFull(c: Config, b: Bucket, now: int)
    requires c.rate > 0.0 && b.tokens >= 0.0
    requires now - b.last > MaxIdle(c)
    ensures Full(c, b, now)
  {
    var x := c.burst / c.rate * SECOND as real;
    assert (now - b.last) as real >= (x.Floor + 1) as real >= x;
    assert Seconds(now - b.last) >= c.burst / c.rate;
    IdleIsFull(c, b, now);
  }

  /** Every bucket's fill lies between empty and burst and its clock is not ahead of t. */
  ghost predicate Sane(c: Config, m: map<string, Bucket>, t: int) {
    forall k :: k in m ==> 0.0 <= m[k].tokens <= c.burst && m[k].last <= t
  }

  /** `some` has forgotten part of what `all` remembers, and only full buckets. */
  ghost predicate ForgetsOnlyFull(c: Config, some: map<string, Bucket>, all: map<string, Bucket>, t: int) {
    && (forall k :: k in some ==> k in all && some[k] == all[k])
    && (forall k :: k in all && k !in some ==> Full(c, all[k], t))
  }

  /** A decision, and the bucket it leaves, is the same whether a full bucket was kept or
      forgotten. */
  lemma LookupAgrees(c: Config, some: map<string, Bucket>, all: map<string, Bucket>, key: string, now: int)
    requires c.rate > 0.0
    requires ForgetsOnlyFull(c, some, all, now)
    ensures Take(c, Lookup(c, some, key, now), now) == Take(c, Lookup(c, all, key, now), now)
  {
  }

  lemma ForgetfulStep(c: Config, some: map<string, Bucket>, all: map<string, Bucket>, key: string, t: int, now: int)
    requires c.rate > 0.0 && c.burst >= 1.0 && t <= now
    requires Sane(c, all, t) && ForgetsOnlyFull(c, some, all, t)
    ensures ForgetsOnlyFull(c, some, all, now)
    ensures var (b, ok) := Take(c, Lookup(c, all, key, now), now);
            && Take(c, Lookup(c, some, key, now), now) == (b, ok)
            && Sane(c, all[key := b], now)
            && ForgetsOnlyFull(c, some[key := b], all[key := b], now)
  {
    forall k | k in all && k !in some
      ensures Full(c, all[k], now)
    {
      StaysFull(c, all[k], t, now);
    }
    LookupAgrees(c, some, all, key, now);
    var b0 := Lookup(c, all, key, now);
    assert Seconds(now - b0.last) >= 0.0;
    assert Seconds(now - b0.last) * c.rate >= 0.0;
  }

  lemma {:induction false} SweepRefines(c: Config, m: Memory, ideal: Memory, es: seq<Event>, n: nat)
    requires c.rate > 0.0 && c.burst >= 1.0 && n <= |es| && Ordered(es)
    requires m.buckets == ideal.buckets == map[]
    ensures n > 0 ==> Sane(c, After(c, false, ideal, es, n).buckets, es[n - 1].now)
    ensures n > 0 ==> ForgetsOnlyFull(c, After(c, true, m, es, n).buckets, After(c, false, ideal, es, n).buckets,
        es[n - 1].now)
    ensures n == 0 ==> After(c, true, m, es, n).buckets == After(c, false, ideal, es, n).buckets == map[]
    ensures n < |es| ==> (Decision(c, true, m, es, n) <==> Decision(c, false, ideal, es, n))
  {
    if n > 0 {
      SweepRefines(c, m, ideal, es, n - 1);
      SweepRefinesStep(c, After(c, true, m, es, n - 1), After(c, false, ideal, es, n - 1), es[n - 1],
                       if n == 1 then es[0].now else es[n - 2].now);
    }
    if n < |es| {
      SweepRefinesStep(c, After(c, true, m, es, n), After(c, false, ideal, es, n), es[n],
                       if n == 0 then es[0].now else es[n - 1].now);
    }
  }

  lemma SweepRefinesStep(c: Config, m: Memory, ideal: Memory, e: Event, t: int)
    requires c.rate > 0.0 && c.burst >= 1.0 && t <= e.now
    requires Sane(c, ideal.buckets, t) && ForgetsOnlyFull(c, m.buckets, ideal.buckets, t)
    ensures Allowed(c, true, m, e).1 == Allowed(c, false, ideal, e).1
    ensures Sane(c, Allowed(c, false, ideal, e).0.buckets, e.now)
    ensures ForgetsOnlyFull(c, Allowed(c, true, m, e).0.buckets, Allowed(c, false, ideal, e).0.buckets, e.now)
  {
    var s := Swept(c, m, e.now);
    forall k | k in ideal.buckets
      ensures k !in s.buckets ==> Full(c, ideal.buckets[k], e.now)
    {
      if k in m.buckets && k !in s.buckets {
        SweptIsFull(c, ideal.buckets[k], e.now);
      } else if k !in m.buckets {
        StaysFull(c, ideal.buckets[k], t, e.now);
      }
    }
    assert ForgetsOnlyFull(c, s.buckets, ideal.buckets, e.now);
    assert Sane(c, ideal.buckets, e.now);
    ForgetfulStep(c, s.buckets, ideal.buckets, e.key, e.now, e.now);
  }
}
