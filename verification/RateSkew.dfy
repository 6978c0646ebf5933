/** The rate limiter when operations take effect out of the order of their clock readings: allow and the janitor read
    the clock before they take the lock (internal/api/ratelimit.go). */
module RateSkew {
  import opened RateLimit

  /** No operation takes effect after one that read the clock more than d later. */
  ghost predicate Skewed(ops: seq<Op>, d: nat) {
    forall i, j | 0 <= i < j < |ops| :: ops[i].at <= ops[j].at + d
  }

  /** With `top` the latest reading so far, what one bucket of a never-evicting limiter satisfies. */
  predicate BucketSane(l: Limits, b: Bucket, top: int, d: nat) {
    0.0 <= b.tokens <= l.burst && b.last <= top && b.last <= b.seen + d
  }

  /** Whatever reading comes next, from top - d on, the bucket is full again. */
  predicate Rested(l: Limits, b: Bucket, top: int, d: nat) {
    b.tokens + Gain(l, top - d - b.last) >= l.burst && top - d > b.last
  }

  ghost predicate Mirrors(l: Limits, e: Buckets, m: Buckets, top: int, d: nat) {
    && e.Keys <= m.Keys
    && (forall ip <- e :: e[ip] == m[ip])
    && forall ip <- m :: BucketSane(l, m[ip], top, d) && (ip !in e ==> Rested(l, m[ip], top, d))
  }

  /** A TTL less twice the skew refills a whole burst. */
  predicate RefillsWithin(l: Limits, d: nat) {
    2 * d <= 600_000_000_000 && l.rate * ((600_000_000_001 - 2 * d) as real / 1_000_000_000.0) >= l.burst
  }

  lemma BucketLater(l: Limits, b: Bucket, top: int, later: int, d: nat)
    requires WellFormed(l) && top <= later
    ensures BucketSane(l, b, top, d) ==> BucketSane(l, b, later, d)
    ensures Rested(l, b, top, d) ==> Rested(l, b, later, d)
  {
    GainMonotone(l, top - d - b.last, later - d - b.last);
  }

  lemma RefillStaysSane(l: Limits, b: Bucket, top: int, at: int, d: nat)
    requires WellFormed(l) && BucketSane(l, b, top, d) && top <= at + d
    ensures BucketSane(l, Refill(l, b, at), if at > top then at else top, d)
  {
    GainMonotone(l, 0, if at > b.last then at - b.last else 0);
  }

  /** A rested bucket refills to what a new one starts with. */
  lemma RestedIsFull(l: Limits, b: Bucket, top: int, at: int, d: nat)
    requires WellFormed(l) && Rested(l, b, top, d) && top <= at + d
    ensures Refill(l, b, at) == Bucket(l.burst, at, at)
  {
    GainMonotone(l, top - d - b.last, at - b.last);
  }

  lemma RequestMirrors(l: Limits, e: Buckets, m: Buckets, top: int, ip: string, at: int, d: nat)
    requires WellFormed(l) && Mirrors(l, e, m, top, d) && top <= at + d
    ensures var (e1, a) := Allow(l, e, ip, at);
            var (m1, b) := Allow(l, m, ip, at);
            a == b && Mirrors(l, e1, m1, if at > top then at else top, d)
  {
    hide Gain, Refill, BucketSane, Rested;
    var later := if at > top then at else top;
    var e1, m1 := Allow(l, e, ip, at).0, Allow(l, m, ip, at).0;
    forall i <- m
      ensures BucketSane(l, m[i], later, d) && (i !in e ==> Rested(l, m[i], later, d))
    {
      BucketLater(l, m[i], top, later, d);
    }
    if ip in m {
      RefillStaysSane(l, m[ip], top, at, d);
      if ip !in e {
        RestedIsFull(l, m[ip], top, at, d);
      }
      SpendStaysSane(l, Refill(l, m[ip], at), later, d);
    } else {
      NewIsSane(l, at, later, d);
    }
  }

  lemma SpendStaysSane(l: Limits, b: Bucket, top: int, d: nat)
    requires BucketSane(l, b, top, d)
    ensures b.tokens >= 1.0 ==> BucketSane(l, b.(tokens := b.tokens - 1.0), top, d)
  {
  }

  lemma NewIsSane(l: Limits, at: int, top: int, d: nat)
    requires WellFormed(l) && at <= top
    ensures BucketSane(l, Bucket(l.burst - 1.0, at, at), top, d)
  {
  }

  lemma DroppedIsRested(l: Limits, b: Bucket, top: int, at: int, d: nat)
    requires WellFormed(l) && RefillsWithin(l, d) && BucketSane(l, b, top, d)
    requires b.seen < at - IDLE_TTL
    ensures Rested(l, b, if at > top then at else top, d)
  {
    var later := if at > top then at else top;
    GainIs(l, IDLE_TTL + 1 - 2 * d);
    GainMonotone(l, IDLE_TTL + 1 - 2 * d, later - d - b.last);
  }

  lemma SweepMirrors(l: Limits, e: Buckets, m: Buckets, top: int, at: int, d: nat)
    requires WellFormed(l) && RefillsWithin(l, d) && Mirrors(l, e, m, top, d) && top <= at + d
    ensures Mirrors(l, EvictIdle(e, at), m, if at > top then at else top, d)
  {
    hide Gain, BucketSane, Rested, RefillsWithin;
    var later := if at > top then at else top;
    forall i <- m
      ensures BucketSane(l, m[i], later, d) && (i !in EvictIdle(e, at) ==> Rested(l, m[i], later, d))
    {
      BucketLater(l, m[i], top, later, d);
      if i in e && i !in EvictIdle(e, at) {
        DroppedIsRested(l, m[i], top, at, d);
      }
    }
  }

  lemma {:induction false} SkewedRun(l: Limits, e: Buckets, m: Buckets, top: int, ops: seq<Op>, d: nat)
    requires WellFormed(l) && RefillsWithin(l, d) && Mirrors(l, e, m, top, d)
    requires Skewed(ops, d) && forall i | 0 <= i < |ops| :: top <= ops[i].at + d
    ensures Grants(l, e, ops) == Grants(l, m, WithoutSweeps(ops))
    decreases |ops|
  {
    hide Gain, Mirrors, RefillsWithin, Allow, EvictIdle;
    if ops != [] {
      var at, rest := ops[0].at, ops[1..];
      var later := if at > top then at else top;
      if ops[0].Sweep? {
        SweepMirrors(l, e, m, top, at, d);
        SkewedRun(l, EvictIdle(e, at), m, later, rest, d);
        assert WithoutSweeps(ops) == WithoutSweeps(rest);
      } else {
        RequestMirrors(l, e, m, top, ops[0].ip, at, d);
        SkewedRun(l, Allow(l, e, ops[0].ip, at).0, Allow(l, m, ops[0].ip, at).0, later, rest, d);
        assert WithoutSweeps(ops)[1..] == WithoutSweeps(rest);
      }
    }
  }

  /** The janitor stays invisible over every run whose readings are out of order by at most d, if a TTL less twice d
      refills a burst. */
  lemma SkewedEvictionInvisible(rps: int, burst: int, ops: seq<Op>, d: nat)
    requires rps > 0 && RefillsWithin(NewLimits(rps, burst), d) && Skewed(ops, d)
    ensures Grants(NewLimits(rps, burst), map[], ops) == Grants(NewLimits(rps, burst), map[], WithoutSweeps(ops))
  {
    SkewedRun(NewLimits(rps, burst), map[], map[], if ops == [] then 0 else ops[0].at, ops, d);
  }

  /** The server's sizing tolerates readings out of order by almost five minutes. */
  lemma ServerToleratesSkew(rps: int, d: nat)
    requires rps > 0 && d <= 299 * SECOND
    ensures RefillsWithin(NewLimits(rps, rps * BURST_FACTOR), d)
  {
    var l := NewLimits(rps, rps * BURST_FACTOR);
    GainIs(l, IDLE_TTL + 1 - 2 * d);
    GainMonotone(l, 2 * SECOND, IDLE_TTL + 1 - 2 * d);
    assert Gain(l, 2 * SECOND) == 2.0 * l.rate;
  }
}
