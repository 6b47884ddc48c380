/** The in-process limiter under arbitrary clocks: a thread reads its clock before it takes the
    lock, so events arrive out of order, and a sweep may drop a bucket that an event with an
    earlier clock then misses. When the rate bound survives this, exactly. */
module StaleClocks {
  import opened TokenBucket

  /** Both limiters start without buckets. */
  ghost predicate Fresh(c: Config, m: Memory) {
    c.rate > 0.0 && c.burst >= 1.0 && m.buckets == map[]
  }

  /** Every window of every key that a grant opens and a grant closes is within the allowance. */
  ghost predicate WithinBound(c: Config, m: Memory, es: seq<Event>) {
    forall i, j ::
      && 0 <= i <= j < |es| && es[i].key == es[j].key
      && Decision(c, true, m, es, i) && Decision(c, true, m, es, j)
      ==> WindowOk(c, m, es, i, j)
  }

  predicate WindowOk(c: Config, m: Memory, es: seq<Event>, i: nat, j: nat)
    requires i <= j < |es|
  {
    Granted(c, true, m, es, es[j].key, i, j + 1) as real <= Allowance(c, es[i].now, es[j].now)
  }

  /** The sweeping limiter decides the first n events like the one that never forgets. */
  ghost predicate Agree(c: Config, m: Memory, es: seq<Event>, n: nat)
    requires n <= |es|
  {
    forall k :: 0 <= k < n ==> (Decision(c, true, m, es, k) <==> Decision(c, false, m, es, k))
  }

  lemma {:induction false} AgreeingGrants(c: Config, m: Memory, es: seq<Event>, key: string, lo: nat, hi: nat, n: nat)
    requires lo <= hi <= n <= |es| && Agree(c, m, es, n)
    ensures Granted(c, true, m, es, key, lo, hi) == Granted(c, false, m, es, key, lo, hi)
    decreases hi - lo
  {
    if lo < hi {
      AgreeingGrants(c, m, es, key, lo, hi - 1, n);
    }
  }

  /** A sweep only ever makes a bucket fuller. */
  ghost predicate Fuller(c: Config, some: map<string, Bucket>, all: map<string, Bucket>) {
    forall k :: k in some ==> k in all && Potential(c, some[k]) >= Potential(c, all[k])
  }

  lemma RefilledIs(c: Config, b: Bucket, now: int)
    ensures Refilled(c, b, now)
            == if Potential(c, b) + Refill(c, now) > c.burst then c.burst else Potential(c, b) + Refill(c, now)
  {
    assert Seconds(now - b.last) == Seconds(now) - Seconds(b.last);
  }

  lemma TakeIsMonotone(c: Config, b: Bucket, less: Bucket, now: int)
    requires c.burst >= 1.0 && Potential(c, b) >= Potential(c, less)
    ensures Take(c, less, now).1 ==> Take(c, b, now).1
    ensures Take(c, b, now).1 == Take(c, less, now).1 ==>
              Potential(c, Take(c, b, now).0) >= Potential(c, Take(c, less, now).0)
  {
    RefilledIs(c, b, now);
    RefilledIs(c, less, now);
  }

  /** A bucket made on first use is at least as full as any. */
  lemma NewIsFullest(c: Config, b: Bucket, now: int)
    requires c.burst >= 1.0
    ensures Take(c, Bucket(c.burst, now), now).1
    ensures Take(c, b, now).1 ==>
              Potential(c, Take(c, Bucket(c.burst, now), now).0) >= Potential(c, Take(c, b, now).0)
  {
  }

  lemma SweepIsNoStricter(c: Config, m: Memory, ideal: Memory, e: Event)
    requires c.rate > 0.0 && c.burst >= 1.0 && Fuller(c, m.buckets, ideal.buckets)
    ensures Allowed(c, false, ideal, e).1 ==> Allowed(c, true, m, e).1
    ensures Allowed(c, false, ideal, e).1 == Allowed(c, true, m, e).1 ==>
              Fuller(c, Allowed(c, true, m, e).0.buckets, Allowed(c, false, ideal, e).0.buckets)
  {
    var kept := Swept(c, m, e.now).buckets;
    if e.key in kept {
      TakeIsMonotone(c, kept[e.key], ideal.buckets[e.key], e.now);
    } else {
      NewIsFullest(c, Lookup(c, ideal.buckets, e.key, e.now), e.now);
    }
  }

  lemma {:induction false} AgreeingIsFuller(c: Config, m: Memory, es: seq<Event>, n: nat)
    requires Fresh(c, m) && n <= |es| && Agree(c, m, es, n)
    ensures Fuller(c, After(c, true, m, es, n).buckets, After(c, false, m, es, n).buckets)
  {
    if n > 0 {
      AgreeingIsFuller(c, m, es, n - 1);
      SweepIsNoStricter(c, After(c, true, m, es, n - 1), After(c, false, m, es, n - 1), es[n - 1]);
      assert Decision(c, true, m, es, n - 1) == Decision(c, false, m, es, n - 1);
    }
  }

  /** At the first event the two decide differently, the sweeping limiter grants too much. */
  lemma FirstDifference(c: Config, m: Memory, es: seq<Event>, n: nat)
    requires Fresh(c, m) && n < |es| && Agree(c, m, es, n)
        && Decision(c, true, m, es, n) != Decision(c, false, m, es, n)
    ensures !WithinBound(c, m, es)
  {
    AgreeingIsFuller(c, m, es, n);
    SweepIsNoStricter(c, After(c, true, m, es, n), After(c, false, m, es, n), es[n]);
    var i := DenialExceedsTheBound(c, m, es, n);
    AgreeingGrants(c, m, es, es[n].key, i, n, n);
    assert Decision(c, true, m, es, i);
    assert !WindowOk(c, m, es, i, n);
  }

  lemma {:induction false} WithinBoundAgrees(c: Config, m: Memory, es: seq<Event>, n: nat)
    requires Fresh(c, m) && n <= |es| && WithinBound(c, m, es)
    ensures Agree(c, m, es, n)
  {
    if n > 0 {
      WithinBoundAgrees(c, m, es, n - 1);
      if Decision(c, true, m, es, n - 1) != Decision(c, false, m, es, n - 1) {
        FirstDifference(c, m, es, n - 1);
      }
    }
  }

  /** Whatever the clocks: the sweeping limiter keeps the rate bound for every window of every
      key if and only if it decides every event as the limiter that never forgets does. */
  lemma BoundIffAgreement(c: Config, m: Memory, es: seq<Event>)
    requires Fresh(c, m)
    ensures WithinBound(c, m, es) <==> Agree(c, m, es, |es|)
  {
    if WithinBound(c, m, es) {
      WithinBoundAgrees(c, m, es, |es|);
    }
    if Agree(c, m, es, |es|) {
      forall i, j | 0 <= i <= j < |es| && es[i].key == es[j].key && Decision(c, true, m, es, i)
          && Decision(c, true, m, es, j)
        ensures WindowOk(c, m, es, i, j)
      {
        AgreeingGrants(c, m, es, es[j].key, i, j + 1, |es|);
        RateBound(c, false, m, es, es[j].key, i, j);
      }
    }
  }

  /** If the event's key has lost its bucket to a sweep, that bucket would be full by now. */
  ghost predicate LostOnlyFull(c: Config, m: Memory, es: seq<Event>, n: nat)
    requires n < |es|
  {
    var key, all := es[n].key, After(c, false, m, es, n).buckets;
    key in all && key !in Swept(c, After(c, true, m, es, n), es[n].now).buckets ==> Full(c, all[key], es[n].now)
  }

  /** What the sweeping limiter remembers is what it would remember without sweeping. */
  ghost predicate Remembers(some: map<string, Bucket>, all: map<string, Bucket>) {
    forall k :: k in some ==> k in all && some[k] == all[k]
  }

  lemma {:induction false} LostOnlyFullAgrees(c: Config, m: Memory, es: seq<Event>, n: nat)
    requires Fresh(c, m) && n <= |es| && forall k :: 0 <= k < n ==> LostOnlyFull(c, m, es, k)
    ensures Agree(c, m, es, n)
    ensures Remembers(After(c, true, m, es, n).buckets, After(c, false, m, es, n).buckets)
  {
    if n > 0 {
      LostOnlyFullAgrees(c, m, es, n - 1);
      assert LostOnlyFull(c, m, es, n - 1);
      RememberingStep(c, After(c, true, m, es, n - 1), After(c, false, m, es, n - 1), es[n - 1]);
    }
  }

  lemma RememberingStep(c: Config, m: Memory, ideal: Memory, e: Event)
    requires c.rate > 0.0 && c.burst >= 1.0 && Remembers(m.buckets, ideal.buckets)
    requires e.key in ideal.buckets && e.key !in Swept(c, m, e.now).buckets ==> Full(c, ideal.buckets[e.key], e.now)
    ensures Allowed(c, true, m, e).1 == Allowed(c, false, ideal, e).1
    ensures Remembers(Allowed(c, true, m, e).0.buckets, Allowed(c, false, ideal, e).0.buckets)
  {
  }

  /** While no bucket was lost before it was full, the sweeping limiter, too, grants an event
      exactly when no window opened by an earlier grant would exceed the allowance. */
  lemma SweepingGrantsExactlyWithinTheBound(c: Config, m: Memory, es: seq<Event>, j: nat)
    requires Fresh(c, m) && j < |es| && forall k :: 0 <= k <= j ==> LostOnlyFull(c, m, es, k)
    ensures Decision(c, true, m, es, j) <==>
            forall i :: 0 <= i < j && es[i].key == es[j].key && Decision(c, true, m, es, i)
              ==> Granted(c, true, m, es, es[j].key, i, j) as real + 1.0
                  <= Allowance(c, es[i].now, es[j].now)
  {
    LostOnlyFullAgrees(c, m, es, j + 1);
    GrantedExactlyWithinTheBound(c, m, es, j);
    forall i | 0 <= i < j
      ensures Decision(c, true, m, es, i) == Decision(c, false, m, es, i)
      ensures Granted(c, true, m, es, es[j].key, i, j) == Granted(c, false, m, es, es[j].key, i, j)
    {
      AgreeingGrants(c, m, es, es[j].key, i, j, j + 1);
    }
  }

  function Copies(e: Event, k: nat): (r: seq<Event>)
    ensures |r| == k && forall i :: 0 <= i < k ==> r[i] == e
  {
    seq(k, _ => e)
  }

  lemma {:induction false} PrefixAfter(c: Config, sweeping: bool, m: Memory, es: seq<Event>, more: seq<Event>, n: nat)
    requires n <= |es|
    ensures After(c, sweeping, m, es + more, n) == After(c, sweeping, m, es, n)
  {
    if n > 0 {
      PrefixAfter(c, sweeping, m, es, more, n - 1);
    }
  }

  lemma PrefixLost(c: Config, m: Memory, es: seq<Event>, more: seq<Event>, n: nat)
    requires n < |es|
    ensures LostOnlyFull(c, m, es + more, n) <==> LostOnlyFull(c, m, es, n)
  {
    PrefixAfter(c, true, m, es, more, n);
    PrefixAfter(c, false, m, es, more, n);
  }

  /** The sweep keeps a bucket that was used at this very instant. */
  lemma JustUsedIsKept(c: Config, m: Memory, e: Event)
    requires c.rate > 0.0
    ensures var m' := Allowed(c, true, m, e).0; e.key in Swept(c, m', e.now).buckets
  {
  }

  lemma CopiesLoseNothing(c: Config, m: Memory, es: seq<Event>, e: Event, k: nat, n: nat)
    requires Fresh(c, m) && |es| <= n < |es| + k
    requires n == |es| ==> LostOnlyFull(c, m, es + [e], n)
    ensures LostOnlyFull(c, m, es + Copies(e, k), n)
  {
    var fs := es + Copies(e, k);
    assert fs[n] == e;
    if n == |es| {
      assert Copies(e, k) == [e] + Copies(e, k - 1);
      assert fs == es + [e] + Copies(e, k - 1);
      PrefixLost(c, m, es + [e], Copies(e, k - 1), n);
    } else {
      assert fs[n - 1] == e;
      JustUsedIsKept(c, After(c, true, m, fs, n - 1), e);
    }
  }

  /** Asking on at the same instant, with whole tokens to spend, spends one each time. */
  lemma TakeAgain(c: Config, b: Bucket, now: int)
    requires b.last == now && b.tokens <= c.burst
    ensures Take(c, b, now) == if b.tokens < 1.0 then (b, false) else (Bucket(b.tokens - 1.0, now), true)
  {
    RefilledAtOnce(c, b.tokens, now);
  }

  /** After a bucket was lost, the copies of an event drain a full one. */
  lemma {:induction false} CopiesDrainANewBucket(c: Config, m: Memory, es: seq<Event>, e: Event, k: nat, j: nat)
    requires Fresh(c, m) && 0 < j <= k && k as real <= c.burst
    requires e.key !in Swept(c, After(c, true, m, es, |es|), e.now).buckets
    ensures var fs := es + Copies(e, k);
            && e.key in After(c, true, m, fs, |es| + j).buckets
            && After(c, true, m, fs, |es| + j).buckets[e.key] == Bucket(c.burst - j as real, e.now)
            && Decision(c, true, m, fs, |es| + j - 1)
  {
    var fs := es + Copies(e, k);
    assert fs[|es| + j - 1] == e;
    if j == 1 {
      PrefixAfter(c, true, m, es, Copies(e, k), |es|);
    } else {
      CopiesDrainANewBucket(c, m, es, e, k, j - 1);
      TakeAgain(c, Bucket(c.burst - (j - 1) as real, e.now), e.now);
    }
  }

  lemma GrantTakesOne(c: Config, m: Memory, e: Event, left: real)
    requires c.rate > 0.0 && e.key in m.buckets && left == Refilled(c, m.buckets[e.key], e.now)
    requires Allowed(c, false, m, e).1
    ensures e.key in Allowed(c, false, m, e).0.buckets
    ensures Allowed(c, false, m, e).0.buckets[e.key] == Bucket(left - 1.0, e.now) && left >= 1.0
  {
  }

  lemma RefilledAtOnce(c: Config, tokens: real, now: int)
    requires tokens <= c.burst
    ensures Refilled(c, Bucket(tokens, now), now) == tokens
  {
    assert Seconds(now - now) == 0.0;
  }

  lemma AgreeAt(c: Config, m: Memory, es: seq<Event>, n: nat, k: nat)
    requires n <= |es| && k < n && Agree(c, m, es, n)
    ensures Decision(c, true, m, es, k) == Decision(c, false, m, es, k)
  {
  }

  ghost predicate GrantsAll(c: Config, m: Memory, es: seq<Event>, lo: nat)
    requires lo <= |es|
  {
    forall n :: lo <= n < |es| ==> Decision(c, false, m, es, n)
  }

  lemma NewBucketGrants(c: Config, m: Memory, es: seq<Event>, e: Event, k: nat, n: nat)
    requires Fresh(c, m) && k as real <= c.burst && |es| <= n < |es| + k
    requires e.key !in Swept(c, After(c, true, m, es, |es|), e.now).buckets
    ensures Decision(c, true, m, es + Copies(e, k), n)
  {
    CopiesDrainANewBucket(c, m, es, e, k, n - |es| + 1);
  }

  /** The same events, all granted, drain what the limiter that never forgets remembers. */
  lemma {:induction false} CopiesDrainTheOldBucket(c: Config, m: Memory, es: seq<Event>, e: Event, k: nat, j: nat)
    requires Fresh(c, m) && 0 < j <= k && GrantsAll(c, m, es + Copies(e, k), |es|)
    requires e.key in After(c, false, m, es, |es|).buckets
    ensures var fs := es + Copies(e, k);
            var left := Refilled(c, After(c, false, m, es, |es|).buckets[e.key], e.now);
            && e.key in After(c, false, m, fs, |es| + j).buckets
            && After(c, false, m, fs, |es| + j).buckets[e.key] == Bucket(left - j as real, e.now)
            && left >= j as real
  {
    var fs := es + Copies(e, k);
    var left := Refilled(c, After(c, false, m, es, |es|).buckets[e.key], e.now);
    assert fs[|es| + j - 1] == e && Decision(c, false, m, fs, |es| + j - 1);
    if j == 1 {
      PrefixAfter(c, false, m, es, Copies(e, k), |es|);
    } else {
      CopiesDrainTheOldBucket(c, m, es, e, k, j - 1);
      RefilledAtOnce(c, left - (j - 1) as real, e.now);
    }
    GrantTakesOne(c, After(c, false, m, fs, |es| + j - 1), e, left - (j - 1) as real);
  }

  lemma OldBucketGrants(c: Config, m: Memory, es: seq<Event>, e: Event, k: nat, n: nat)
    requires Fresh(c, m) && |es| <= n < |es| + k && c.burst == k as real
    requires e.key !in Swept(c, After(c, true, m, es, |es|), e.now).buckets
    requires WithinBound(c, m, es + Copies(e, k))
    ensures Decision(c, false, m, es + Copies(e, k), n)
  {
    WithinBoundAgrees(c, m, es + Copies(e, k), |es| + k);
    NewBucketGrants(c, m, es, e, k, n);
    AgreeAt(c, m, es + Copies(e, k), |es| + k, n);
  }

  lemma LosingMoreBreaksTheBound(c: Config, m: Memory, es: seq<Event>, e: Event, k: nat)
    requires Fresh(c, m) && k > 0 && c.burst == k as real
    requires e.key !in Swept(c, After(c, true, m, es, |es|), e.now).buckets
    requires e.key in After(c, false, m, es, |es|).buckets
    requires !Full(c, After(c, false, m, es, |es|).buckets[e.key], e.now)
    ensures !WithinBound(c, m, es + Copies(e, k))
  {
    if WithinBound(c, m, es + Copies(e, k)) {
      forall n | |es| <= n < |es| + k
        ensures Decision(c, false, m, es + Copies(e, k), n)
      {
        OldBucketGrants(c, m, es, e, k, n);
      }
      CopiesDrainTheOldBucket(c, m, es, e, k, k);
    }
  }

  /** The condition on lost buckets is exact. As long as it held so far, it holds at the next
      event if and only if the bound is kept however often that event is repeated; the burst is
      a whole number, as newMemoryLimiter makes it. */
  lemma LostOnlyFullIsExact(c: Config, m: Memory, es: seq<Event>, e: Event)
    requires Fresh(c, m) && c.burst == c.burst.Floor as real
    requires forall n :: 0 <= n < |es| ==> LostOnlyFull(c, m, es, n)
    ensures LostOnlyFull(c, m, es + [e], |es|) <==> forall k: nat :: WithinBound(c, m, es + Copies(e, k))
  {
    if LostOnlyFull(c, m, es + [e], |es|) {
      forall k: nat
        ensures WithinBound(c, m, es + Copies(e, k))
      {
        var fs := es + Copies(e, k);
        forall n | 0 <= n < |fs|
          ensures LostOnlyFull(c, m, fs, n)
        {
          if n < |es| {
            PrefixLost(c, m, es, Copies(e, k), n);
          } else {
            CopiesLoseNothing(c, m, es, e, k, n);
          }
        }
        LostOnlyFullAgrees(c, m, fs, |fs|);
        BoundIffAgreement(c, m, fs);
      }
    } else {
      PrefixAfter(c, true, m, es, [e], |es|);
      PrefixAfter(c, false, m, es, [e], |es|);
      LosingMoreBreaksTheBound(c, m, es, e, c.burst.Floor);
    }
  }

  /** A run that breaks it: a thread that read its clock early and took the lock after a sweep
      finds a fresh, full bucket. Two grants at one instant against a burst of one. */
  lemma StaleClockAfterSweepBreaksTheBound()
    ensures var c := Config(1.0, 1.0);
            var m := Memory(map[], 0);
            var es := [Event("k", 0), Event("other", 2 * MINUTE), Event("k", 0)];
            && Decision(c, true, m, es, 0) && Decision(c, true, m, es, 2)
            && Granted(c, true, m, es, "k", 0, 3) == 2
            && 2.0 > Allowance(c, es[0].now, es[2].now)
  {
  }
}
