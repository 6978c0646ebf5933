/** The rate limiter refuses no request that it could grant: the other half of the window bound. */
module RateDue {
  import opened RateLimit

  lemma {:induction false} AfterOneMore(l: Limits, m: Buckets, ops: seq<Op>, op: Op)
    ensures After(l, m, ops + [op]) == StepOp(l, After(l, m, ops), op).0
    decreases |ops|
  {
    hide StepOp;
    if ops == [] {
      assert [op][1..] == [];
    } else {
      assert (ops + [op])[1..] == ops[1..] + [op];
      AfterOneMore(l, StepOp(l, m, ops[0]).0, ops[1..], op);
    }
  }

  /** Whether op is a request of ip that is granted. */
  function Granted(l: Limits, m: Buckets, op: Op, ip: string): nat {
    if op.Request? && op.ip == ip && StepOp(l, m, op).1 == [true] then 1 else 0
  }

  lemma {:induction false} GrantedOneMore(l: Limits, m: Buckets, ops: seq<Op>, op: Op, ip: string)
    ensures GrantedTo(l, m, ops + [op], ip) == GrantedTo(l, m, ops, ip) + Granted(l, After(l, m, ops), op, ip)
    decreases |ops|
  {
    hide StepOp;
    if ops == [] {
      assert [op][1..] == [];
    } else {
      assert (ops + [op])[1..] == ops[1..] + [op];
      GrantedOneMore(l, StepOp(l, m, ops[0]).0, ops[1..], op, ip);
    }
  }

  /** The requests of ip granted from the k-th operation on. */
  function GrantedFrom(l: Limits, ops: seq<Op>, k: nat, ip: string): nat
    requires k <= |ops|
  {
    GrantedTo(l, After(l, map[], ops[..k]), ops[k..], ip)
  }

  /** The bucket was full when operation k came, at `start`, and has been filled at the rate and spent since. */
  ghost predicate FullSince(l: Limits, ops: seq<Op>, ip: string, b: Bucket, k: nat, start: int) {
    && k < |ops| && start == ops[k].at <= b.last
    && b.tokens == l.burst + Gain(l, b.last - start) - GrantedFrom(l, ops, k, ip) as real
  }

  ghost predicate Accounted(l: Limits, ops: seq<Op>, ip: string, m: Buckets) {
    ip in m ==> (exists k: nat, start: int :: FullSince(l, ops, ip, m[ip], k, start))
                && exists i | 0 <= i < |ops| :: ops[i].at == m[ip].last
  }

  lemma OneMoreFrom(l: Limits, ops: seq<Op>, op: Op, k: nat, ip: string)
    requires k <= |ops|
    ensures GrantedFrom(l, ops + [op], k, ip)
            == GrantedFrom(l, ops, k, ip) + Granted(l, After(l, map[], ops), op, ip)
  {
    hide StepOp, GrantedTo, Granted;
    assert (ops + [op])[..k] == ops[..k] && (ops + [op])[k..] == ops[k..] + [op];
    GrantedOneMore(l, After(l, map[], ops[..k]), ops[k..], op, ip);
    AfterSplits(l, map[], ops, k);
  }

  lemma {:induction false} AfterSplits(l: Limits, m: Buckets, ops: seq<Op>, k: nat)
    requires k <= |ops|
    ensures After(l, After(l, m, ops[..k]), ops[k..]) == After(l, m, ops)
    decreases k
  {
    hide StepOp;
    if k > 0 {
      assert ops[..k][1..] == ops[1..][..k - 1] && ops[k..] == ops[1..][k - 1..];
      AfterSplits(l, StepOp(l, m, ops[0]).0, ops[1..], k - 1);
    } else {
      assert ops[..0] == [] && ops[0..] == ops;
    }
  }

  /** At the operation that finds the bucket full, nothing is granted yet. */
  lemma NothingFrom(l: Limits, ops: seq<Op>, op: Op, ip: string)
    ensures GrantedFrom(l, ops + [op], |ops|, ip) == Granted(l, After(l, map[], ops), op, ip)
  {
    hide StepOp;
    OneMoreFrom(l, ops, op, |ops|, ip);
    assert ops[|ops|..] == [];
  }

  /** The bucket of an IP that asks: full if it was not there, else refilled, and less one if it grants. */
  lemma AskedBucket(l: Limits, m: Buckets, ip: string, at: int)
    requires ip in m ==> m[ip].last <= at
    ensures var (n, ok) := Allow(l, m, ip, at);
            && ip in n && n[ip].last == at
            && Granted(l, m, Request(ip, at), ip) == (if ok then 1 else 0)
            && (ip !in m ==> ok && n[ip].tokens == l.burst - 1.0)
            && (ip in m ==>
                  var full := at > m[ip].last && m[ip].tokens + Gain(l, at - m[ip].last) > l.burst;
                  n[ip].tokens == (if full then l.burst else m[ip].tokens + Gain(l, at - m[ip].last))
                                  - if ok then 1.0 else 0.0)
            && (!ok ==> n[ip].tokens < 1.0)
  {
  }

  /** A request of ip itself: its bucket was full just now, or goes on from where it was. */
  lemma RequestIsAccounted(l: Limits, ops: seq<Op>, ip: string, at: int)
    requires Clocked(ops + [Request(ip, at)]) && Accounted(l, ops, ip, After(l, map[], ops))
    ensures Accounted(l, ops + [Request(ip, at)], ip, Allow(l, After(l, map[], ops), ip, at).0)
  {
    var m, op := After(l, map[], ops), Request(ip, at);
    var all := ops + [op];
    hide After, GrantedFrom, Allow, Gain, Granted;
    assert all[|ops|] == op;
    NothingFrom(l, ops, op, ip);
    GainIs(l, 0);
    if ip in m {
      var k: nat, start: int :| FullSince(l, ops, ip, m[ip], k, start);
      var i :| 0 <= i < |ops| && ops[i].at == m[ip].last;
      assert all[i] == ops[i] && all[k] == ops[k] && all[i].at <= all[|ops|].at;
      OneMoreFrom(l, ops, op, k, ip);
      GainSplits(l, m[ip].last - start, at - m[ip].last);
      AskedBucket(l, m, ip, at);
      var b := Allow(l, m, ip, at).0[ip];
      assert FullSince(l, all, ip, b, |ops|, at) || FullSince(l, all, ip, b, k, start);
    } else {
      AskedBucket(l, m, ip, at);
      assert FullSince(l, all, ip, Allow(l, m, ip, at).0[ip], |ops|, at);
    }
  }

  /** Any other operation leaves the bucket alone or drops it. */
  lemma OtherIsAccounted(l: Limits, ops: seq<Op>, ip: string, op: Op)
    requires Accounted(l, ops, ip, After(l, map[], ops)) && (op.Request? ==> op.ip != ip)
    ensures Accounted(l, ops + [op], ip, StepOp(l, After(l, map[], ops), op).0)
  {
    var m := After(l, map[], ops);
    var n, all := StepOp(l, m, op).0, ops + [op];
    hide After, GrantedFrom, Gain;
    assert ip in n ==> ip in m && n[ip] == m[ip];
    if ip in n {
      var k: nat, start: int :| FullSince(l, ops, ip, m[ip], k, start);
      var i :| 0 <= i < |ops| && ops[i].at == m[ip].last;
      assert all[i] == ops[i] && all[k] == ops[k];
      OneMoreFrom(l, ops, op, k, ip);
      assert FullSince(l, all, ip, n[ip], k, start);
    }
  }

  lemma {:induction false} RunIsAccounted(l: Limits, ops: seq<Op>, ip: string)
    requires Clocked(ops)
    ensures Accounted(l, ops, ip, After(l, map[], ops))
    decreases |ops|
  {
    hide Accounted, StepOp;
    if ops == [] {
      NothingAccounted(l, ip);
    } else {
      var before, op := ops[..|ops| - 1], ops[|ops| - 1];
      assert ops == before + [op];
      RunIsAccounted(l, before, ip);
      AfterOneMore(l, map[], before, op);
      if op.Request? && op.ip == ip {
        StepIsRequest(l, After(l, map[], before), op);
        RequestIsAccounted(l, before, ip, op.at);
      } else {
        OtherIsAccounted(l, before, ip, op);
      }
    }
  }

  lemma NothingAccounted(l: Limits, ip: string)
    ensures Accounted(l, [], ip, After(l, map[], []))
  {
  }

  lemma StepIsRequest(l: Limits, m: Buckets, op: Op)
    requires op.Request?
    ensures StepOp(l, m, op).0 == Allow(l, m, op.ip, op.at).0
  {
  }

  /** One more request of ip would pass the bound of the window that starts with operation k. */
  ghost predicate UsedUp(l: Limits, ops: seq<Op>, ip: string, at: int, k: nat, start: int) {
    && k <= |ops| && IsWindow(ops[..k], ops[k..], start, at)
    && GrantedTo(l, After(l, map[], ops[..k]), ops[k..], ip) as real + 1.0
       > l.burst + l.rate * ((at - start) as real / 1_000_000_000.0)
  }

  /** A bucket found short since operation k leaves the window from there used up. */
  lemma ShortSince(l: Limits, ops: seq<Op>, ip: string, at: int, b: Bucket, k: nat, start: int)
    requires Clocked(ops + [Request(ip, at)]) && Granted(l, After(l, map[], ops), Request(ip, at), ip) == 0
    requires FullSince(l, ops + [Request(ip, at)], ip, b, k, start) && k < |ops| && b.last == at && b.tokens < 1.0
    ensures UsedUp(l, ops, ip, at, k, start)
  {
    hide After, GrantedFrom, Gain, Granted, GrantedTo;
    GainIs(l, at - start);
    OneMoreFrom(l, ops, Request(ip, at), k, ip);
    WindowFrom(ops, Request(ip, at), k);
    FromIs(l, ops, k, ip);
  }

  /** And one that was full at the request itself is not short. */
  lemma FullIsNotShort(l: Limits, ops: seq<Op>, ip: string, at: int, b: Bucket, start: int)
    requires l.burst >= 1.0 && Granted(l, After(l, map[], ops), Request(ip, at), ip) == 0
    requires FullSince(l, ops + [Request(ip, at)], ip, b, |ops|, start)
    ensures b.last == at ==> b.tokens >= 1.0
  {
    hide After, GrantedFrom, Granted;
    NothingFrom(l, ops, Request(ip, at), ip);
  }

  /** A refused request finds some window used up, for any limits. */
  lemma RefusalIsDue(l: Limits, ops: seq<Op>, ip: string, at: int)
    requires l.burst >= 1.0 && Clocked(ops + [Request(ip, at)]) && !Allow(l, After(l, map[], ops), ip, at).1
    ensures exists k: nat, start: int :: UsedUp(l, ops, ip, at, k, start)
  {
    var m, op := After(l, map[], ops), Request(ip, at);
    hide After, GrantedFrom, Allow, Gain, Granted, GrantedTo, FullSince, UsedUp;
    ClockedBefore(ops, op);
    RunIsAccounted(l, ops, ip);
    RequestIsAccounted(l, ops, ip, at);
    LastIsEarlier(l, ops, ip, at);
    AskedBucket(l, m, ip, at);
    var b := Allow(l, m, ip, at).0[ip];
    var k: nat, start: int :| FullSince(l, ops + [op], ip, b, k, start);
    KnownOp(l, ops + [op], ip, b, k, start);
    if k == |ops| {
      FullIsNotShort(l, ops, ip, at, b, start);
    } else {
      ShortSince(l, ops, ip, at, b, k, start);
    }
  }

  lemma KnownOp(l: Limits, ops: seq<Op>, ip: string, b: Bucket, k: nat, start: int)
    requires FullSince(l, ops, ip, b, k, start)
    ensures k < |ops|
  {
  }

  lemma FromIs(l: Limits, ops: seq<Op>, k: nat, ip: string)
    requires k <= |ops|
    ensures GrantedFrom(l, ops, k, ip) == GrantedTo(l, After(l, map[], ops[..k]), ops[k..], ip)
  {
  }

  lemma ClockedBefore(ops: seq<Op>, op: Op)
    requires Clocked(ops + [op])
    ensures Clocked(ops)
  {
    var all := ops + [op];
    forall i, j | 0 <= i < j < |ops|
      ensures ops[i].at <= ops[j].at
    {
      assert all[i].at <= all[j].at;
    }
  }

  lemma WindowFrom(ops: seq<Op>, op: Op, k: nat)
    requires Clocked(ops + [op]) && k < |ops|
    ensures IsWindow(ops[..k], ops[k..], ops[k].at, op.at)
  {
    var all := ops + [op];
    ClockedBefore(ops, op);
    assert ops[..k] + ops[k..] == ops;
    assert forall i | 0 <= i < |ops| :: all[i] == ops[i] && all[i].at <= all[|ops|].at;
  }

  lemma LastIsEarlier(l: Limits, ops: seq<Op>, ip: string, at: int)
    requires Clocked(ops + [Request(ip, at)]) && Accounted(l, ops, ip, After(l, map[], ops))
    ensures ip in After(l, map[], ops) ==> After(l, map[], ops)[ip].last <= at
  {
    var all := ops + [Request(ip, at)];
    hide After, FullSince;
    if ip in After(l, map[], ops) {
      var i :| 0 <= i < |ops| && ops[i].at == After(l, map[], ops)[ip].last;
      assert all[i].at <= all[|ops|].at;
    }
  }

  /** So, when a TTL refills a burst, a request is granted exactly when no window that ends with it is used up: the
      limiter grants burst + rate * T requests in every window and never refuses one that stays within that. */
  lemma GrantedIff(rps: int, burst: int, ops: seq<Op>, ip: string, at: int)
    requires rps > 0 && Refills(NewLimits(rps, burst)) && Clocked(ops + [Request(ip, at)])
    ensures var l := NewLimits(rps, burst);
            Allow(l, After(l, map[], ops), ip, at).1 <==>
              !exists k: nat, start: int :: UsedUp(l, ops, ip, at, k, start)
  {
    var l, op := NewLimits(rps, burst), Request(ip, at);
    hide Allow, After, Refills, GrantedTo;
    if !Allow(l, After(l, map[], ops), ip, at).1 {
      RefusalIsDue(l, ops, ip, at);
    } else {
      forall k: nat, start: int
        ensures !UsedUp(l, ops, ip, at, k, start)
      {
        if k <= |ops| && IsWindow(ops[..k], ops[k..], start, at) {
          GrantStaysWithin(l, ops, ip, at, k, start);
        }
      }
    }
  }

  lemma GrantStaysWithin(l: Limits, ops: seq<Op>, ip: string, at: int, k: nat, start: int)
    requires WellFormed(l) && Refills(l) && Clocked(ops + [Request(ip, at)])
    requires k <= |ops| && IsWindow(ops[..k], ops[k..], start, at)
    requires Allow(l, After(l, map[], ops), ip, at).1
    ensures !UsedUp(l, ops, ip, at, k, start)
  {
    var op := Request(ip, at);
    hide After, GrantedTo, Refills, Gain;
    AfterSplits(l, map[], ops, k);
    GrantedOneMore(l, After(l, map[], ops[..k]), ops[k..], op, ip);
    WindowOneMore(ops, op, k, start);
    WindowHolds(l, ops[..k], ops[k..] + [op], ip, start, at);
  }

  lemma WindowOneMore(ops: seq<Op>, op: Op, k: nat, start: int)
    requires Clocked(ops + [op]) && k <= |ops| && IsWindow(ops[..k], ops[k..], start, op.at)
    ensures IsWindow(ops[..k], ops[k..] + [op], start, op.at)
  {
    assert ops[..k] + (ops[k..] + [op]) == ops + [op];
  }
}
