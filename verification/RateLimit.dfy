/** The per-IP token bucket and its janitor (internal/api/ratelimit.go). Time is in nanoseconds and
    token counts are reals. */
module RateLimit {

  const SECOND: nat := 1_000_000_000
  const IDLE_TTL: nat := 600 * SECOND
  const BURST_FACTOR: nat := 2

  datatype Bucket = Bucket(tokens: real, last: int, seen: int)

  type Buckets = map<string, Bucket>

  /** The limits of a running limiter. */
  datatype Limits = Limits(rate: real, burst: real)

  function NewLimits(rps: int, burst: int): Limits {
    Limits(rps as real, if burst < rps then rps as real else burst as real)
  }

  /** Tokens gained in a span of time. */
  function Gain(l: Limits, span: int): real {
    span as real * l.rate / SECOND as real
  }

  function Refill(l: Limits, b: Bucket, now: int): Bucket {
    if now > b.last then
      var t := b.tokens + Gain(l, now - b.last);
      Bucket(if t > l.burst then l.burst else t, now, now)
    else b.(seen := now)
  }

  function Allow(l: Limits, m: Buckets, ip: string, now: int): (r: (Buckets, bool)) {
    if ip !in m then (m[ip := Bucket(l.burst - 1.0, now, now)], true)
    else
      var b := Refill(l, m[ip], now);
      if b.tokens >= 1.0 then (m[ip := b.(tokens := b.tokens - 1.0)], true) else (m[ip := b], false)
  }

  function EvictIdle(m: Buckets, now: int): Buckets {
    map ip | ip in m && m[ip].seen >= now - IDLE_TTL :: m[ip]
  }

  // ---------- The object ----------

  class RateLimiter {
    const limits: Limits
    var buckets: Buckets

    constructor (rps: int, burst: int)
      ensures limits == NewLimits(rps, burst) && buckets == map[]
    {
      limits, buckets := NewLimits(rps, burst), map[];
    }

    method AllowRequest(ip: string, now: int) returns (ok: bool)
      modifies this
      ensures (buckets, ok) == Allow(limits, old(buckets), ip, now)
    {
      if ip !in buckets {
        buckets := buckets[ip := Bucket(limits.burst - 1.0, now, now)];
        return true;
      }
      var b := buckets[ip];
      var elapsed := now - b.last;
      if elapsed > 0 {
        var tokens := b.tokens + elapsed as real * limits.rate / SECOND as real;
        b := b.(tokens := if tokens > limits.burst then limits.burst else tokens, last := now);
      }
      b := b.(seen := now);
      ok := b.tokens >= 1.0;
      if ok {
        b := b.(tokens := b.tokens - 1.0);
      }
      buckets := buckets[ip := b];
    }

    /** The janitor's sweep, deleting in an arbitrary order. */
    method Evict(now: int)
      modifies this
      ensures buckets == EvictIdle(old(buckets), now)
    {
      var todo := buckets.Keys;
      while todo != {}
        invariant todo <= old(buckets).Keys
        invariant forall ip <- old(buckets) ::
                    ip in buckets <==> ip in todo || old(buckets)[ip].seen >= now - IDLE_TTL
        invariant forall ip <- buckets :: ip in old(buckets) && buckets[ip] == old(buckets)[ip]
        decreases |todo|
      {
        var ip :| ip in todo;
        todo := todo - {ip};
        if buckets[ip].seen < now - IDLE_TTL {
          buckets := buckets - {ip};
        }
      }
    }
  }

  /** A limiter for `rps` requests a second; none (no limit at all) when rps is not positive. */
  method NewRateLimiter(rps: int, burst: int) returns (rl: RateLimiter?)
    ensures rl == null <==> rps <= 0
    ensures rl != null ==> fresh(rl) && rl.buckets == map[] && rl.limits == NewLimits(rps, burst)
    ensures rl != null ==>
              rl.limits.rate == rps as real && rl.limits.burst == (if burst < rps then rps else burst) as real
  {
    if rps <= 0 {
      return null;
    }
    rl := new RateLimiter(rps, burst);
  }

  // ---------- Runs ----------

  datatype Op = Request(ip: string, at: int) | Sweep(at: int)

  /** The clock never goes back. */
  ghost predicate Clocked(ops: seq<Op>) {
    forall i, j | 0 <= i < j < |ops| :: ops[i].at <= ops[j].at
  }

  function StepOp(l: Limits, m: Buckets, op: Op): (r: (Buckets, seq<bool>)) {
    match op
    case Request(ip, at) => var (n, ok) := Allow(l, m, ip, at); (n, [ok])
    case Sweep(at) => (EvictIdle(m, at), [])
  }

  /** The answers to the requests of a run, in order. */
  function Grants(l: Limits, m: Buckets, ops: seq<Op>): seq<bool>
    decreases |ops|
  {
    if ops == [] then [] else
      var (n, ok) := StepOp(l, m, ops[0]);
      ok + Grants(l, n, ops[1..])
  }

  /** The same requests with no janitor. */
  function WithoutSweeps(ops: seq<Op>): seq<Op> {
    if ops == [] then [] else (if ops[0].Sweep? then [] else [ops[0]]) + WithoutSweeps(ops[1..])
  }

  // ---------- Eviction is invisible ----------

  /** What the buckets of a never-evicting limiter satisfy at time `now`. */
  ghost predicate Sane(l: Limits, m: Buckets, now: int) {
    forall ip <- m :: 0.0 <= m[ip].tokens <= l.burst && m[ip].last == m[ip].seen <= now
  }

  /** A bucket the janitor may have dropped is full again the next time it is asked. */
  ghost predicate Idle(l: Limits, b: Bucket, now: int) {
    b.tokens + Gain(l, now - b.last) >= l.burst && now > b.last
  }

  /** The evicting map against the complete one: equal where both have a bucket, idle where only the
      complete one has. */
  ghost predicate Simulates(l: Limits, e: Buckets, m: Buckets, now: int) {
    && e.Keys <= m.Keys
    && (forall ip <- e :: e[ip] == m[ip])
    && (forall ip <- m :: ip !in e ==> Idle(l, m[ip], now))
  }

  /** The janitor only drops a bucket that waiting has filled: ten minutes and a nanosecond, because the
      eviction test is strict, bring a whole burst. */
  predicate Refills(l: Limits) {
    l.rate * 600.000000001 >= l.burst
  }

  lemma GainIs(l: Limits, span: int)
    ensures Gain(l, span) == l.rate * (span as real / 1_000_000_000.0)
  {
  }

  lemma RefillsIs(l: Limits)
    ensures Refills(l) <==> Gain(l, IDLE_TTL + 1) >= l.burst
  {
    GainIs(l, IDLE_TTL + 1);
  }

  predicate WellFormed(l: Limits) {
    l.rate > 0.0 && l.burst >= 1.0
  }

  lemma GainMonotone(l: Limits, a: int, b: int)
    requires WellFormed(l) && a <= b
    ensures Gain(l, a) <= Gain(l, b)
  {
  }

  lemma GainSplits(l: Limits, a: int, b: int)
    ensures Gain(l, a + b) == Gain(l, a) + Gain(l, b)
  {
  }

  lemma IdleLater(l: Limits, b: Bucket, now: int, later: int)
    requires WellFormed(l) && Idle(l, b, now) && now <= later
    ensures Idle(l, b, later)
  {
  }

  lemma RefillSane(l: Limits, b: Bucket, now: int)
    requires WellFormed(l) && 0.0 <= b.tokens <= l.burst && b.last == b.seen <= now
    ensures var r := Refill(l, b, now); 0.0 <= r.tokens <= l.burst && r.last == r.seen == now
  {
  }

  lemma RequestSimulates(l: Limits, e: Buckets, m: Buckets, now: int, ip: string, at: int)
    requires WellFormed(l) && Sane(l, m, now) && Simulates(l, e, m, now) && now <= at
    ensures var (e1, a) := Allow(l, e, ip, at);
            var (m1, b) := Allow(l, m, ip, at);
            a == b && Sane(l, m1, at) && Simulates(l, e1, m1, at)
  {
    var e1, m1 := Allow(l, e, ip, at).0, Allow(l, m, ip, at).0;
    if ip in m {
      RefillSane(l, m[ip], at);
      if ip !in e {
        IdleLater(l, m[ip], now, at);
      }
    }
    forall d <- m1 | d !in e1
      ensures Idle(l, m1[d], at)
    {
      IdleLater(l, m[d], now, at);
    }
  }

  lemma SweepSimulates(l: Limits, e: Buckets, m: Buckets, now: int, at: int)
    requires WellFormed(l) && Refills(l) && Sane(l, m, now) && Simulates(l, e, m, now) && now <= at
    ensures Sane(l, m, at) && Simulates(l, EvictIdle(e, at), m, at)
  {
    forall d <- m | d !in EvictIdle(e, at)
      ensures Idle(l, m[d], at)
    {
      if d in e {
        GainMonotone(l, IDLE_TTL + 1, at - m[d].last);
      } else {
        IdleLater(l, m[d], now, at);
      }
    }
  }

  lemma {:induction false} EvictionInvisible(l: Limits, e: Buckets, m: Buckets, now: int, ops: seq<Op>)
    requires WellFormed(l) && Refills(l) && Sane(l, m, now) && Simulates(l, e, m, now)
    requires Clocked(ops) && forall i | 0 <= i < |ops| :: now <= ops[i].at
    ensures Grants(l, e, ops) == Grants(l, m, WithoutSweeps(ops))
    decreases |ops|
  {
    if ops != [] {
      var at, rest := ops[0].at, ops[1..];
      if ops[0].Sweep? {
        SweepSimulates(l, e, m, now, at);
        EvictionInvisible(l, EvictIdle(e, at), m, at, rest);
        assert WithoutSweeps(ops) == WithoutSweeps(rest);
      } else {
        RequestSimulates(l, e, m, now, ops[0].ip, at);
        EvictionInvisible(l, Allow(l, e, ops[0].ip, at).0, Allow(l, m, ops[0].ip, at).0, at, rest);
        assert WithoutSweeps(ops)[1..] == WithoutSweeps(rest);
      }
    }
  }

  // ---------- Requests at one instant ----------

  function Repeat(ip: string, at: int, k: nat): seq<Op> {
    if k == 0 then [] else [Request(ip, at)] + Repeat(ip, at, k - 1)
  }

  function Trues(k: nat): seq<bool> {
    if k == 0 then [] else [true] + Trues(k - 1)
  }

  /** No time passes, so nothing refills: one token goes. */
  lemma DrainOne(l: Limits, m: Buckets, ip: string, at: int)
    requires ip in m && m[ip].last == at && m[ip].seen == at && m[ip].tokens >= 1.0
    ensures Allow(l, m, ip, at) == (m[ip := Bucket(m[ip].tokens - 1.0, at, at)], true)
  {
  }

  /** A bucket holding at least k tokens grants k requests at once and keeps the rest. */
  lemma {:induction false} DrainAll(l: Limits, m: Buckets, ip: string, at: int, k: nat, rest: seq<Op>)
    requires ip in m && m[ip].last == at && m[ip].seen == at && m[ip].tokens >= k as real
    ensures Grants(l, m, Repeat(ip, at, k) + rest)
            == Trues(k) + Grants(l, m[ip := Bucket(m[ip].tokens - k as real, at, at)], rest)
    decreases k
  {
    hide Allow;
    var ops := Repeat(ip, at, k) + rest;
    if k == 0 {
      assert ops == rest;
      assert m[ip := Bucket(m[ip].tokens - 0.0, at, at)] == m;
    } else {
      var m1 := Allow(l, m, ip, at).0;
      DrainOne(l, m, ip, at);
      assert ops[1..] == Repeat(ip, at, k - 1) + rest;
      DrainAll(l, m1, ip, at, k - 1, rest);
      assert m1[ip := Bucket(m1[ip].tokens - (k - 1) as real, at, at)]
          == m[ip := Bucket(m[ip].tokens - k as real, at, at)];
    }
  }

  /** One holding fewer refuses one of k requests at once. */
  lemma {:induction false} DrainFails(l: Limits, m: Buckets, ip: string, at: int, k: nat)
    requires ip in m && m[ip].last == at && m[ip].seen == at && 0.0 <= m[ip].tokens < k as real
    ensures false in Grants(l, m, Repeat(ip, at, k))
    decreases k
  {
    var ops := Repeat(ip, at, k);
    var (m1, ok) := Allow(l, m, ip, at);
    assert ops[1..] == Repeat(ip, at, k - 1);
    if ok {
      DrainFails(l, m1, ip, at, k - 1);
    }
  }

  lemma {:induction false} AllTrue(k: nat)
    ensures |Trues(k)| == k && false !in Trues(k)
  {
    if k > 0 {
      AllTrue(k - 1);
    }
  }

  /** Spend the whole burst at time 0, sweep as soon as the bucket counts as idle, and ask again. */
  function BurstTwice(n: nat): seq<Op> {
    Repeat("a", 0, n) + ([Sweep(IDLE_TTL + 1)] + Repeat("a", IDLE_TTL + 1, n))
  }

  lemma FullBurst(l: Limits, n: nat, at: int, rest: seq<Op>)
    requires n >= 1 && l.burst == n as real
    ensures Grants(l, map[], Repeat("a", at, n) + rest)
            == Trues(n) + Grants(l, map["a" := Bucket(0.0, at, at)], rest)
  {
    var ops := Repeat("a", at, n) + rest;
    var m1: Buckets := map["a" := Bucket(l.burst - 1.0, at, at)];
    assert ops[0] == Request("a", at) && ops[1..] == Repeat("a", at, n - 1) + rest;
    assert Allow(l, map[], "a", at) == (m1, true);
    DrainAll(l, m1, "a", at, n - 1, rest);
    assert m1["a" := Bucket(0.0, at, at)] == map["a" := Bucket(0.0, at, at)];
    assert Trues(n) == [true] + Trues(n - 1);
  }

  lemma {:induction false} SweepsGone(ip: string, at: int, k: nat, rest: seq<Op>)
    ensures WithoutSweeps(Repeat(ip, at, k) + rest) == Repeat(ip, at, k) + WithoutSweeps(rest)
    decreases k
  {
    hide Allow;
    var ops := Repeat(ip, at, k) + rest;
    if k == 0 {
      assert ops == rest;
    } else {
      assert ops[1..] == Repeat(ip, at, k - 1) + rest;
      SweepsGone(ip, at, k - 1, rest);
    }
  }

  lemma {:induction false} RepeatAt(ip: string, at: int, k: nat)
    ensures |Repeat(ip, at, k)| == k && forall i | 0 <= i < k :: Repeat(ip, at, k)[i] == Request(ip, at)
  {
    if k > 0 {
      RepeatAt(ip, at, k - 1);
    }
  }

  lemma BurstTwiceClocked(n: nat)
    ensures Clocked(BurstTwice(n)) && forall i | 0 <= i < |BurstTwice(n)| :: 0 <= BurstTwice(n)[i].at <= IDLE_TTL + 1
  {
    RepeatAt("a", 0, n);
    RepeatAt("a", IDLE_TTL + 1, n);
  }

  /** With the janitor both bursts are granted in full. */
  lemma BurstTwiceSwept(l: Limits, n: nat)
    requires n >= 1 && l.burst == n as real
    ensures Grants(l, map[], BurstTwice(n)) == Trues(n) + Trues(n)
  {
    var late := Repeat("a", IDLE_TTL + 1, n);
    var tail := [Sweep(IDLE_TTL + 1)] + late;
    var m: Buckets := map["a" := Bucket(0.0, 0, 0)];
    FullBurst(l, n, 0, tail);
    assert tail[1..] == late && EvictIdle(m, IDLE_TTL + 1) == map[];
    FullBurst(l, n, IDLE_TTL + 1, []);
    assert late + [] == late;
  }

  /** Only what a bucket refills to matters to the requests that follow. */
  lemma SameOnceRefilled(l: Limits, m: Buckets, full: Buckets, ops: seq<Op>, at: int)
    requires m.Keys == full.Keys == {"a"} && ops != [] && ops[0] == Request("a", at)
    requires Refill(l, m["a"], at) == Refill(l, full["a"], at)
    ensures Grants(l, m, ops) == Grants(l, full, ops)
  {
    hide Refill;
    var x := Refill(l, m["a"], at);
    assert m["a" := x] == full["a" := x];
    assert m["a" := x.(tokens := x.tokens - 1.0)] == full["a" := x.(tokens := x.tokens - 1.0)];
  }

  /** An empty bucket asked again a nanosecond past the TTL refuses one of n requests, if waiting does not fill it. */
  lemma LateBurstFails(l: Limits, n: nat)
    requires n >= 1 && l.burst == n as real && WellFormed(l) && !Refills(l)
    ensures false in Grants(l, map["a" := Bucket(0.0, 0, 0)], Repeat("a", IDLE_TTL + 1, n))
  {
    var at := IDLE_TTL + 1;
    RefillsIs(l);
    GainIs(l, 0);
    hide Gain, Refills, Grants;
    var full: Buckets := map["a" := Bucket(Gain(l, at), at, at)];
    GainMonotone(l, 0, at);
    DrainFails(l, full, "a", at, n);
    SameOnceRefilled(l, map["a" := Bucket(0.0, 0, 0)], full, Repeat("a", at, n), at);
  }

  /** Without it the second burst is refused in part, if a TTL does not refill the bucket. */
  lemma BurstTwiceKept(l: Limits, n: nat)
    requires n >= 1 && l.burst == n as real && WellFormed(l) && !Refills(l)
    ensures false in Grants(l, map[], WithoutSweeps(BurstTwice(n)))
  {
    hide Gain, Refills, Grants;
    var at := IDLE_TTL + 1;
    var late := Repeat("a", at, n);
    var tail := [Sweep(at)] + late;
    SweepsGone("a", 0, n, tail);
    SweepsGone("a", at, n, []);
    assert tail[1..] == late && late + [] == late;
    assert WithoutSweeps(tail) == [] + WithoutSweeps(late) == late;
    FullBurst(l, n, 0, late);
    LateBurstFails(l, n);
    assert false in Trues(n) + Grants(l, map["a" := Bucket(0.0, 0, 0)], late);
  }

  /** A run with the janitor grants exactly what one without it grants, for every run under a clock that
      does not go back, exactly when waiting out the TTL refills a whole burst. */
  lemma EvictionInvisibleIff(rps: int, burst: int)
    requires rps > 0
    ensures var l := NewLimits(rps, burst);
            Refills(l) <==>
              forall ops: seq<Op> | Clocked(ops) :: Grants(l, map[], ops) == Grants(l, map[], WithoutSweeps(ops))
  {
    var l := NewLimits(rps, burst);
    var n: nat := if burst < rps then rps else burst;
    if Refills(l) {
      forall ops: seq<Op> | Clocked(ops)
        ensures Grants(l, map[], ops) == Grants(l, map[], WithoutSweeps(ops))
      {
        EvictionInvisible(l, map[], map[], if ops == [] then 0 else ops[0].at, ops);
      }
    } else {
      BurstTwiceClocked(n);
      BurstTwiceSwept(l, n);
      BurstTwiceKept(l, n);
      AllTrue(n);
    }
  }

  /** The server's sizing, a burst of twice the rate, is well inside the condition. */
  lemma ServerBurstRefills(rps: int)
    requires rps > 0
    ensures Refills(NewLimits(rps, rps * BURST_FACTOR))
  {
  }

  // ---------- How many requests one IP is granted ----------

  /** The requests of `ip` granted in a run that starts from `m`. */
  function GrantedTo(l: Limits, m: Buckets, ops: seq<Op>, ip: string): nat
    decreases |ops|
  {
    if ops == [] then 0 else
      var (n, ok) := StepOp(l, m, ops[0]);
      (if ops[0].Request? && ops[0].ip == ip && ok == [true] then 1 else 0) + GrantedTo(l, n, ops[1..], ip)
  }

  function After(l: Limits, m: Buckets, ops: seq<Op>): Buckets
    decreases |ops|
  {
    if ops == [] then m else After(l, StepOp(l, m, ops[0]).0, ops[1..])
  }

  /** What an IP could spend at time `now`. */
  function Allowance(l: Limits, m: Buckets, ip: string, now: int): real {
    if ip !in m then l.burst else Refill(l, m[ip], now).tokens
  }

  lemma WaitAllowance(l: Limits, m: Buckets, ip: string, now: int, at: int)
    requires WellFormed(l) && Sane(l, m, now) && now <= at
    ensures Allowance(l, m, ip, at) <= Allowance(l, m, ip, now) + Gain(l, at - now)
  {
  }

  lemma SpendAllowance(l: Limits, m: Buckets, ip: string, now: int, op: Op)
    requires WellFormed(l) && Refills(l) && Sane(l, m, now) && now <= op.at
    ensures var (n, ok) := StepOp(l, m, op);
            && Sane(l, n, op.at)
            && (if op.Request? && op.ip == ip && ok == [true] then 1.0 else 0.0) + Allowance(l, n, ip, op.at)
               <= Allowance(l, m, ip, op.at)
  {
    match op
    case Request(d, at) => if d in m { RefillSane(l, m[d], at); }
    case Sweep(at) =>
      if ip in m && ip !in EvictIdle(m, at) {
        GainMonotone(l, IDLE_TTL + 1, at - m[ip].last);
      }
  }

  lemma {:induction false} SpendRun(l: Limits, m: Buckets, now: int, ops: seq<Op>, ip: string, end: int)
    requires WellFormed(l) && Refills(l) && Sane(l, m, now) && now <= end
    requires Clocked(ops) && forall i | 0 <= i < |ops| :: now <= ops[i].at <= end
    ensures GrantedTo(l, m, ops, ip) as real <= Allowance(l, m, ip, now) + Gain(l, end - now)
    decreases |ops|
  {
    if ops == [] {
      GainMonotone(l, 0, end - now);
      if ip in m { RefillSane(l, m[ip], now); }
    } else {
      var at := ops[0].at;
      WaitAllowance(l, m, ip, now, at);
      SpendAllowance(l, m, ip, now, ops[0]);
      SpendRun(l, StepOp(l, m, ops[0]).0, at, ops[1..], ip, end);
      GainSplits(l, at - now, end - at);
    }
  }

  lemma {:induction false} AfterSane(l: Limits, m: Buckets, now: int, ops: seq<Op>, end: int)
    requires WellFormed(l) && Refills(l) && Sane(l, m, now) && now <= end
    requires Clocked(ops) && forall i | 0 <= i < |ops| :: now <= ops[i].at <= end
    ensures Sane(l, After(l, m, ops), end)
    decreases |ops|
  {
    if ops != [] {
      SpendAllowance(l, m, "", now, ops[0]);
      AfterSane(l, StepOp(l, m, ops[0]).0, ops[0].at, ops[1..], end);
    }
  }

  ghost predicate IsWindow(before: seq<Op>, ops: seq<Op>, start: int, end: int) {
    && Clocked(before + ops) && start <= end
    && (forall i | 0 <= i < |before| :: before[i].at <= start)
    && (forall i | 0 <= i < |ops| :: start <= ops[i].at <= end)
  }

  ghost predicate WithinBound(l: Limits, before: seq<Op>, ops: seq<Op>, ip: string, start: int, end: int) {
    GrantedTo(l, After(l, map[], before), ops, ip) as real
    <= l.burst + l.rate * ((end - start) as real / 1_000_000_000.0)
  }

  /** In every run, whatever came before, one IP is granted at most burst + rate * T requests in any
      window of length T. */
  ghost predicate WindowBound(l: Limits) {
    forall before: seq<Op>, ops: seq<Op>, ip: string, start: int, end: int |
      IsWindow(before, ops, start, end) :: WithinBound(l, before, ops, ip, start, end)
  }

  lemma {:induction false} GrantedIsTrues(l: Limits, m: Buckets, ops: seq<Op>)
    requires false !in Grants(l, m, ops) && forall i | 0 <= i < |ops| :: ops[i].Request? ==> ops[i].ip == "a"
    ensures GrantedTo(l, m, ops, "a") == |Grants(l, m, ops)|
    decreases |ops|
  {
    if ops != [] {
      var (n, ok) := StepOp(l, m, ops[0]);
      assert Grants(l, m, ops) == ok + Grants(l, n, ops[1..]);
      if ops[0].Request? {
        assert Grants(l, m, ops)[0] == ok[0] && ok[0];
      }
      GrantedIsTrues(l, n, ops[1..]);
    }
  }

  /** The bound holds for the same limits for which eviction is invisible, and for no others. */
  lemma WindowBoundIff(rps: int, burst: int)
    requires rps > 0
    ensures Refills(NewLimits(rps, burst)) <==> WindowBound(NewLimits(rps, burst))
  {
    var l := NewLimits(rps, burst);
    if Refills(l) {
      forall before: seq<Op>, ops: seq<Op>, ip: string, start: int, end: int | IsWindow(before, ops, start, end)
        ensures WithinBound(l, before, ops, ip, start, end)
      {
        WindowHolds(l, before, ops, ip, start, end);
      }
    } else {
      BurstTwiceOverruns(l, if burst < rps then rps else burst);
    }
  }

  /** Both bursts in full is more than the bound allows, if a TTL does not refill the bucket. */
  lemma BurstTwiceOverruns(l: Limits, n: nat)
    requires n >= 1 && l.burst == n as real && !Refills(l)
    ensures IsWindow([], BurstTwice(n), 0, IDLE_TTL + 1)
    ensures !WithinBound(l, [], BurstTwice(n), "a", 0, IDLE_TTL + 1)
  {
    RefillsIs(l);
    GainIs(l, IDLE_TTL + 1);
    hide Gain, Refills;
    var ops := BurstTwice(n);
    BurstTwiceClocked(n);
    BurstTwiceSwept(l, n);
    AllTrue(n);
    RepeatAt("a", 0, n);
    RepeatAt("a", IDLE_TTL + 1, n);
    GrantedIsTrues(l, map[], ops);
    assert [] + ops == ops;
    assert After(l, map[], []) == map[];
  }

  lemma AllowanceAtMostBurst(l: Limits, m: Buckets, ip: string, now: int)
    requires WellFormed(l) && Sane(l, m, now)
    ensures Allowance(l, m, ip, now) <= l.burst
  {
    if ip in m { RefillSane(l, m[ip], now); }
  }

  lemma WindowHolds(l: Limits, before: seq<Op>, ops: seq<Op>, ip: string, start: int, end: int)
    requires WellFormed(l) && Refills(l) && IsWindow(before, ops, start, end)
    ensures WithinBound(l, before, ops, ip, start, end)
  {
    hide Gain, Refills, After, GrantedTo, Allowance, Sane;
    GainIs(l, end - start);
    assert forall i | 0 <= i < |before| :: before[i] == (before + ops)[i];
    assert forall i | 0 <= i < |ops| :: ops[i] == (before + ops)[|before| + i];
    var m := After(l, map[], before);
    var from := if before == [] then start else before[0].at;
    NothingIsSane(l, from);
    AfterSane(l, map[], from, before, start);
    SpendRun(l, m, start, ops, ip, end);
    AllowanceAtMostBurst(l, m, ip, start);
  }

  lemma NothingIsSane(l: Limits, now: int)
    ensures Sane(l, map[], now)
  {
  }
}
