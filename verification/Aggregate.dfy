/** Rolling one pool's raw swap logs up into time buckets (internal/aggregate/aggregate.go) over the
    store's contracts (internal/store/queries.go): incremental passes against one batch computation.
    Time counts nanoseconds from Go's zero time. */
module Aggregate {
  import opened Common
  import opened TimeGrid
  import opened SwapCodec

  datatype RawLog = RawLog(txHash: string, logIndex: nat, time: nat, topic0: string, data: string)

  /** The primary key of raw_logs, within one chain. */
  datatype LogKey = LogKey(txHash: string, logIndex: nat)

  function KeyOf(l: RawLog): (key: LogKey) {
    LogKey(l.txHash, l.logIndex)
  }

  datatype Bucket = Bucket(swapCount: int, vol0: int, vol1: int, netflow0: int, netflow1: int)

  const ZERO := Bucket(0, 0, 0, 0, 0)

  function Add(a: Bucket, b: Bucket): Bucket {
    Bucket(a.swapCount + b.swapCount, a.vol0 + b.vol0, a.vol1 + b.vol1,
           a.netflow0 + b.netflow0, a.netflow1 + b.netflow1)
  }

  /** A swap always counts; its amounts count when they decode. */
  function Share(l: RawLog): Bucket {
    match DecodeSwap(l.topic0, l.data)
    case Ok(d) => Bucket(1, d.vol0, d.vol1, d.netflow0, d.netflow1)
    case Err(_) => Bucket(1, 0, 0, 0, 0)
  }

  // ---------- The batch computation ----------

  predicate Falls(win: Grid, l: RawLog, w: nat)
  {
    IsSwapTopic(l.topic0) && win(l.time) == w
  }

  /** The bucket of window w over all of `logs`. */
  function Sum(win: Grid, logs: seq<RawLog>, w: nat): Bucket
  {
    if logs == [] then ZERO else
      var rest := Sum(win, logs[..|logs| - 1], w);
      var l := logs[|logs| - 1];
      if Falls(win, l, w) then Add(rest, Share(l)) else rest
  }

  predicate HasSwap(win: Grid, logs: seq<RawLog>, w: nat)
  {
    exists l <- logs :: Falls(win, l, w)
  }

  /** The table is what bucketizing all of `logs` at once gives. */
  ghost predicate IsBatch(win: Grid, logs: seq<RawLog>, buckets: map<nat, Bucket>)
  {
    forall w: nat :: && (w in buckets <==> HasSwap(win, logs, w))
                     && (w in buckets ==> buckets[w] == Sum(win, logs, w))
  }

  // ---------- The order of the logs does not matter ----------

  lemma AddAssociates(a: Bucket, b: Bucket, c: Bucket)
    ensures Add(Add(a, b), c) == Add(a, Add(b, c)) && Add(a, ZERO) == a && Add(a, b) == Add(b, a)
  {
  }

  lemma {:induction false} SumConcat(win: Grid, a: seq<RawLog>, b: seq<RawLog>, w: nat)
    ensures Sum(win, a + b, w) == Add(Sum(win, a, w), Sum(win, b, w))
    decreases |b|
  {
    hide Falls, Share, Add;
    if b == [] {
      assert a + b == a;
      AddAssociates(Sum(win, a, w), ZERO, ZERO);
    } else {
      assert (a + b)[..|a + b| - 1] == a + b[..|b| - 1];
      SumConcat(win, a, b[..|b| - 1], w);
      AddAssociates(Sum(win, a, w), Sum(win, b[..|b| - 1], w), Share(b[|b| - 1]));
    }
  }

  /** Taking one log out takes out its share. */
  lemma SumWithout(win: Grid, logs: seq<RawLog>, j: nat, w: nat)
    requires j < |logs|
    ensures var rest := Sum(win, logs[..j] + logs[j + 1..], w);
            Sum(win, logs, w) == if Falls(win, logs[j], w) then Add(rest, Share(logs[j])) else rest
  {
    hide Falls, Share, Add;
    var c, l, d := logs[..j], logs[j], logs[j + 1..];
    assert logs == c + [l] + d && (c + [l])[..|c|] == c;
    SumConcat(win, c, d, w);
    SumConcat(win, c + [l], d, w);
    AddAssociates(Sum(win, c, w), Share(l), Sum(win, d, w));
    AddAssociates(Sum(win, c, w), Sum(win, d, w), Share(l));
    AddAssociates(Share(l), Sum(win, d, w), ZERO);
  }

  lemma {:induction false} SumAnyOrder(win: Grid, a: seq<RawLog>, b: seq<RawLog>, w: nat)
    requires multiset(a) == multiset(b)
    ensures Sum(win, a, w) == Sum(win, b, w)
    decreases |a|
  {
    hide Falls, Share, Add;
    if a == [] {
      assert |multiset(b)| == 0;
    } else {
      var n := |a| - 1;
      assert a[n] in multiset(b);
      var j :| 0 <= j < |b| && b[j] == a[n];
      WithoutOne(a, n);
      WithoutOne(b, j);
      SumAnyOrder(win, Without(a, n), Without(b, j), w);
      SumWithout(win, a, n, w);
      SumWithout(win, b, j, w);
    }
  }

  lemma {:induction false} SumNothing(win: Grid, logs: seq<RawLog>, w: nat)
    requires !HasSwap(win, logs, w)
    ensures Sum(win, logs, w) == ZERO
    decreases |logs|
  {
    if logs != [] {
      assert logs[|logs| - 1] in logs;
      SumNothing(win, logs[..|logs| - 1], w);
    }
  }

  lemma {:induction false} SumCounts(win: Grid, logs: seq<RawLog>, w: nat)
    ensures Sum(win, logs, w).swapCount >= 0
    ensures HasSwap(win, logs, w) <==> Sum(win, logs, w).swapCount > 0
  {
    if logs != [] {
      SumCounts(win, logs[..|logs| - 1], w);
      assert forall l <- logs :: l in logs[..|logs| - 1] || l == logs[|logs| - 1];
    }
  }

  /** The logs at or after t. */
  function Since(logs: seq<RawLog>, t: nat): seq<RawLog> {
    if logs == [] then [] else
      var rest := Since(logs[..|logs| - 1], t);
      if logs[|logs| - 1].time >= t then rest + [logs[|logs| - 1]] else rest
  }

  lemma SinceHas(logs: seq<RawLog>, t: nat, l: RawLog)
    ensures l in Since(logs, t) <==> l in logs && l.time >= t
  {
  }

  /** Windows from t on only see the logs from t on. */
  lemma {:induction false} SumSince(win: Grid, logs: seq<RawLog>, t: nat, w: nat)
    requires IsGrid(win) && win(t) == t && w >= t
    ensures Sum(win, Since(logs, t), w) == Sum(win, logs, w)
    ensures HasSwap(win, Since(logs, t), w) <==> HasSwap(win, logs, w)
    decreases |logs|
  {
    forall l <- logs | Falls(win, l, w)
      ensures l in Since(logs, t)
    {
      WindowAtLeast(win, l.time, t);
      SinceHas(logs, t, l);
    }
    forall l <- Since(logs, t)
      ensures l in logs
    {
      SinceHas(logs, t, l);
    }
    if logs != [] {
      var init, l := logs[..|logs| - 1], logs[|logs| - 1];
      SumSince(win, init, t, w);
      WindowAtLeast(win, l.time, t);
      if l.time >= t {
        assert Since(logs, t)[..|Since(logs, t)| - 1] == Since(init, t);
      }
    }
  }

  // ---------- What a pass reads and writes ----------

  ghost function MaxOf(s: set<nat>): (m: nat)
    requires s != {}
    ensures m in s && forall x <- s :: x <= m
  {
    var x :| x in s;
    if s == {x} then x else
      var y := MaxOf(s - {x});
      assert s == (s - {x}) + {x};
      if x > y then x else y
  }

  /** LastBucketTime, or the zero time while there is no bucket. */
  ghost function Watermark(buckets: map<nat, Bucket>): (t: nat)
    ensures forall w <- buckets :: w <= t
    ensures buckets != map[] ==> t in buckets
    ensures buckets == map[] ==> t == 0
  {
    if buckets == map[] then 0 else MaxOf(buckets.Keys)
  }

  /** RawLogsSince: the oldest `cap` of the rows at or after `since` in time order, ties in any order;
      `rest` is what the cap left behind. */
  ghost predicate Query(raw: seq<RawLog>, since: nat, cap: nat, rows: seq<RawLog>, rest: seq<RawLog>) {
    && multiset(rows + rest) == multiset(Since(raw, since))
    && |rows| <= cap
    && (|rows| < cap ==> rest == [])
    && ByTime(rows)
    && (forall a <- rows, b <- rest :: a.time <= b.time)
  }

  function InsertByTime(l: RawLog, s: seq<RawLog>): seq<RawLog> {
    if s == [] || l.time <= s[0].time then [l] + s else [s[0]] + InsertByTime(l, s[1..])
  }

  /** The rows in time order, ties as they come. */
  function SortByTime(s: seq<RawLog>): seq<RawLog> {
    if s == [] then [] else InsertByTime(s[0], SortByTime(s[1..]))
  }

  ghost predicate ByTime(s: seq<RawLog>) {
    forall i, j | 0 <= i < j < |s| :: s[i].time <= s[j].time
  }

  lemma {:induction false} InsertByTimeHolds(l: RawLog, s: seq<RawLog>)
    ensures multiset(InsertByTime(l, s)) == multiset(s) + multiset{l}
  {
    if s != [] && l.time > s[0].time {
      InsertByTimeHolds(l, s[1..]);
      assert s == [s[0]] + s[1..];
    }
  }

  lemma ByTimeCons(l: RawLog, s: seq<RawLog>)
    requires ByTime(s) && (s == [] || l.time <= s[0].time)
    ensures ByTime([l] + s)
  {
  }

  lemma {:induction false} InsertByTimeSorts(l: RawLog, s: seq<RawLog>)
    requires ByTime(s)
    ensures ByTime(InsertByTime(l, s))
    ensures var r := InsertByTime(l, s); r != [] && (r[0] == l || (s != [] && r[0] == s[0]))
  {
    if s != [] && l.time > s[0].time {
      InsertByTimeSorts(l, s[1..]);
      ByTimeCons(s[0], InsertByTime(l, s[1..]));
    } else {
      ByTimeCons(l, s);
    }
  }

  lemma {:induction false} SortByTimeSorts(s: seq<RawLog>)
    ensures ByTime(SortByTime(s)) && multiset(SortByTime(s)) == multiset(s) && |SortByTime(s)| == |s|
  {
    if s != [] {
      SortByTimeSorts(s[1..]);
      InsertByTimeSorts(s[0], SortByTime(s[1..]));
      InsertByTimeHolds(s[0], SortByTime(s[1..]));
      assert s == [s[0]] + s[1..];
      assert |multiset(SortByTime(s))| == |SortByTime(s)|;
    }
  }

  /** The windows a batch of rows touches. */
  function Keys(win: Grid, rows: seq<RawLog>): (k: set<nat>)
    ensures forall w: nat :: w in k <==> HasSwap(win, rows, w)
  {
    set l <- rows | IsSwapTopic(l.topic0) :: win(l.time)
  }

  /** The upserts go oldest first, so an interrupted pass has written a lower part of its windows. */
  ghost predicate LowerPart(done: set<nat>, keys: set<nat>) {
    done <= keys && forall a <- keys, d <- done :: a < d ==> a in done
  }

  function Upserted(win: Grid, buckets: map<nat, Bucket>, rows: seq<RawLog>, done: set<nat>): map<nat, Bucket>
  {
    map w | w in buckets.Keys + done :: if w in done then Sum(win, rows, w) else buckets[w]
  }

  lemma SameMembers(a: seq<RawLog>, b: seq<RawLog>)
    requires multiset(a) == multiset(b)
    ensures forall l :: l in a <==> l in b
  {
    forall l
      ensures l in a <==> l in b
    {
      assert l in multiset(a) <==> l in a;
      assert l in multiset(b) <==> l in b;
    }
  }

  lemma SumAppend(win: Grid, logs: seq<RawLog>, l: RawLog, w: nat)
    ensures Sum(win, logs + [l], w)
            == if Falls(win, l, w) then Add(Sum(win, logs, w), Share(l)) else Sum(win, logs, w)
    ensures HasSwap(win, logs + [l], w) <==> HasSwap(win, logs, w) || Falls(win, l, w)
  {
  }

  // ---------- What a bucket holds ----------

  /** The swap logs of window w, in order. */
  function SwapLogs(win: Grid, logs: seq<RawLog>, w: nat): seq<RawLog> {
    if logs == [] then [] else
      var l := logs[|logs| - 1];
      SwapLogs(win, logs[..|logs| - 1], w) + if IsSwapTopic(l.topic0) && win(l.time) == w then [l] else []
  }

  /** What those of the logs that decode decode to, in order. */
  function Decoded(logs: seq<RawLog>): seq<SwapAmounts> {
    if logs == [] then [] else
      var d := DecodeSwap(logs[|logs| - 1].topic0, logs[|logs| - 1].data);
      Decoded(logs[..|logs| - 1]) + if d.Ok? then [d.value] else []
  }

  function Total(xs: seq<int>): int {
    if xs == [] then 0 else Total(xs[..|xs| - 1]) + xs[|xs| - 1]
  }

  /** The bucket counts n swaps and adds up the amounts d. */
  ghost predicate AddsUp(b: Bucket, n: nat, d: seq<SwapAmounts>) {
    && b.swapCount == n
    && b.vol0 == Total(seq(|d|, i requires 0 <= i < |d| => d[i].vol0))
    && b.vol1 == Total(seq(|d|, i requires 0 <= i < |d| => d[i].vol1))
    && b.netflow0 == Total(seq(|d|, i requires 0 <= i < |d| => d[i].netflow0))
    && b.netflow1 == Total(seq(|d|, i requires 0 <= i < |d| => d[i].netflow1))
  }

  lemma TotalAppend(xs: seq<int>, x: int, ys: seq<int>)
    requires ys == xs + [x]
    ensures Total(ys) == Total(xs) + x
  {
    assert ys[..|xs|] == xs;
  }

  lemma AddsUpAppend(b: Bucket, n: nat, d: seq<SwapAmounts>, a: SwapAmounts, c: Bucket)
    requires AddsUp(b, n, d)
    requires c == Bucket(b.swapCount + 1, b.vol0 + a.vol0, b.vol1 + a.vol1, b.netflow0 + a.netflow0,
                         b.netflow1 + a.netflow1)
    ensures AddsUp(c, n + 1, d + [a])
  {
    hide Total;
    var e := d + [a];
    TotalAppend(seq(|d|, i requires 0 <= i < |d| => d[i].vol0), a.vol0,
                seq(|e|, i requires 0 <= i < |e| => e[i].vol0));
    TotalAppend(seq(|d|, i requires 0 <= i < |d| => d[i].vol1), a.vol1,
                seq(|e|, i requires 0 <= i < |e| => e[i].vol1));
    TotalAppend(seq(|d|, i requires 0 <= i < |d| => d[i].netflow0), a.netflow0,
                seq(|e|, i requires 0 <= i < |e| => e[i].netflow0));
    TotalAppend(seq(|d|, i requires 0 <= i < |d| => d[i].netflow1), a.netflow1,
                seq(|e|, i requires 0 <= i < |e| => e[i].netflow1));
  }

  lemma DecodedAppend(logs: seq<RawLog>, l: RawLog)
    ensures Decoded(logs + [l]) == Decoded(logs) + (var d := DecodeSwap(l.topic0, l.data);
                                                    if d.Ok? then [d.value] else [])
  {
    assert (logs + [l])[..|logs|] == logs;
  }

  /** A bucket of the batch computation counts every swap of its window, and each amount is the total over the swaps
      that decode; the others add none. */
  lemma {:induction false} SumAddsUp(win: Grid, logs: seq<RawLog>, w: nat)
    ensures AddsUp(Sum(win, logs, w), |SwapLogs(win, logs, w)|, Decoded(SwapLogs(win, logs, w)))
  {
    hide DecodeSwap, Decoded, AddsUp, IsSwapTopic, Sum, SwapLogs;
    if logs == [] {
      NothingAddsUp(win, w);
    } else {
      var front, l := logs[..|logs| - 1], logs[|logs| - 1];
      SumAddsUp(win, front, w);
      LastLog(win, logs, w);
      if Falls(win, l, w) {
        var d := DecodeSwap(l.topic0, l.data);
        var before := SwapLogs(win, front, w);
        DecodedAppend(before, l);
        if d.Ok? {
          AddsUpAppend(Sum(win, front, w), |before|, Decoded(before), d.value, Sum(win, logs, w));
        } else {
          CountOnly(Sum(win, front, w), |before|, Decoded(before), Sum(win, logs, w));
        }
      } else {
        assert SwapLogs(win, logs, w) == SwapLogs(win, front, w);
      }
    }
  }

  lemma LastLog(win: Grid, logs: seq<RawLog>, w: nat)
    requires logs != []
    ensures var l, rest := logs[|logs| - 1], Sum(win, logs[..|logs| - 1], w);
            var d := DecodeSwap(l.topic0, l.data);
            && Sum(win, logs, w)
               == (if !Falls(win, l, w) then rest
                   else if d.Err? then rest.(swapCount := rest.swapCount + 1)
                   else Bucket(rest.swapCount + 1, rest.vol0 + d.value.vol0, rest.vol1 + d.value.vol1,
                               rest.netflow0 + d.value.netflow0, rest.netflow1 + d.value.netflow1))
            && SwapLogs(win, logs, w)
               == SwapLogs(win, logs[..|logs| - 1], w) + if Falls(win, l, w) then [l] else []
  {
    hide DecodeSwap, IsSwapTopic;
  }

  lemma NothingAddsUp(win: Grid, w: nat)
    ensures AddsUp(Sum(win, [], w), |SwapLogs(win, [], w)|, Decoded(SwapLogs(win, [], w)))
  {
  }

  lemma CountOnly(b: Bucket, n: nat, d: seq<SwapAmounts>, c: Bucket)
    requires AddsUp(b, n, d) && c == b.(swapCount := b.swapCount + 1)
    ensures AddsUp(c, n + 1, d + [])
  {
    assert d + [] == d;
  }

  /** So in a table that is the batch computation, which holds a bucket for every window with a swap. */
  lemma BatchAddsUp(win: Grid, logs: seq<RawLog>, buckets: map<nat, Bucket>, w: nat)
    requires IsBatch(win, logs, buckets)
    ensures w in buckets <==> SwapLogs(win, logs, w) != []
    ensures w in buckets ==> AddsUp(buckets[w], |SwapLogs(win, logs, w)|, Decoded(SwapLogs(win, logs, w)))
  {
    hide AddsUp, Sum, Decoded, SwapLogs;
    SumAddsUp(win, logs, w);
    SwapLogsHold(win, logs, w);
  }

  lemma {:induction false} SwapLogsHold(win: Grid, logs: seq<RawLog>, w: nat)
    ensures forall l :: l in SwapLogs(win, logs, w) <==> l in logs && IsSwapTopic(l.topic0) && win(l.time) == w
    ensures SwapLogs(win, logs, w) != [] <==> HasSwap(win, logs, w)
  {
    hide IsSwapTopic;
    if logs != [] {
      SwapLogsHold(win, logs[..|logs| - 1], w);
      assert logs == logs[..|logs| - 1] + [logs[|logs| - 1]];
    }
    if SwapLogs(win, logs, w) != [] {
      assert SwapLogs(win, logs, w)[0] in SwapLogs(win, logs, w);
      assert Falls(win, SwapLogs(win, logs, w)[0], w);
    }
  }

  // ---------- Buckets of encoded swaps ----------

  /** The swaps whose logs fall in window w. */
  function SwapsIn(win: Grid, logs: seq<RawLog>, swaps: seq<Swap>, w: nat): seq<Swap>
    requires |logs| == |swaps|
  {
    if logs == [] then [] else
      var n := |logs| - 1;
      SwapsIn(win, logs[..n], swaps[..n], w) + if win(logs[n].time) == w then [swaps[n]] else []
  }

  function AmountsOf(swaps: seq<Swap>): seq<SwapAmounts> {
    seq(|swaps|, i requires 0 <= i < |swaps| => swaps[i].Amounts())
  }

  lemma {:induction false} SwapsInDecode(win: Grid, logs: seq<RawLog>, swaps: seq<Swap>, w: nat)
    requires |logs| == |swaps| && forall i | 0 <= i < |logs| :: Carries(logs[i].topic0, logs[i].data, swaps[i])
    ensures |SwapLogs(win, logs, w)| == |SwapsIn(win, logs, swaps, w)|
    ensures Decoded(SwapLogs(win, logs, w)) == AmountsOf(SwapsIn(win, logs, swaps, w))
  {
    hide Carries, DecodeSwap, IsSwapTopic, Decoded, SwapLogs;
    if logs == [] {
      NothingDecodes(win, w);
    } else {
      var n := |logs| - 1;
      var before := SwapsIn(win, logs[..n], swaps[..n], w);
      SwapsInDecode(win, logs[..n], swaps[..n], w);
      CarriedDecodes(logs[n].topic0, logs[n].data, swaps[n]);
      LastLog(win, logs, w);
      if win(logs[n].time) == w {
        DecodedAppend(SwapLogs(win, logs[..n], w), logs[n]);
        assert AmountsOf(before + [swaps[n]]) == AmountsOf(before) + [swaps[n].Amounts()];
      } else {
        assert SwapLogs(win, logs, w) == SwapLogs(win, logs[..n], w) && before + [] == before;
      }
    }
  }

  lemma NothingDecodes(win: Grid, w: nat)
    ensures SwapLogs(win, [], w) == [] && Decoded([]) == []
  {
  }

  /** The bucket of a window in which every log carries a swap: volumes are the totals of what came in and what went
      out, net flows of what went out less what came in, whichever of the layouts each log has. */
  lemma BucketOfSwaps(win: Grid, logs: seq<RawLog>, swaps: seq<Swap>, w: nat)
    requires |logs| == |swaps| && forall i | 0 <= i < |logs| :: Carries(logs[i].topic0, logs[i].data, swaps[i])
    ensures var b, ss := Sum(win, logs, w), SwapsIn(win, logs, swaps, w);
            && b.swapCount == |ss|
            && b.vol0 == Total(seq(|ss|, i requires 0 <= i < |ss| => ss[i].in0 + ss[i].out0))
            && b.vol1 == Total(seq(|ss|, i requires 0 <= i < |ss| => ss[i].in1 + ss[i].out1))
            && b.netflow0 == Total(seq(|ss|, i requires 0 <= i < |ss| => ss[i].out0 - ss[i].in0))
            && b.netflow1 == Total(seq(|ss|, i requires 0 <= i < |ss| => ss[i].out1 - ss[i].in1))
  {
    hide Total, Sum, SwapLogs, SwapsIn, Decoded, Carries;
    SumAddsUp(win, logs, w);
    SwapsInDecode(win, logs, swaps, w);
    var ss := SwapsIn(win, logs, swaps, w);
    var d := AmountsOf(ss);
    assert seq(|d|, i requires 0 <= i < |d| => d[i].vol0)
        == seq(|ss|, i requires 0 <= i < |ss| => ss[i].in0 + ss[i].out0);
    assert seq(|d|, i requires 0 <= i < |d| => d[i].vol1)
        == seq(|ss|, i requires 0 <= i < |ss| => ss[i].in1 + ss[i].out1);
    assert seq(|d|, i requires 0 <= i < |d| => d[i].netflow0)
        == seq(|ss|, i requires 0 <= i < |ss| => ss[i].out0 - ss[i].in0);
    assert seq(|d|, i requires 0 <= i < |d| => d[i].netflow1)
        == seq(|ss|, i requires 0 <= i < |ss| => ss[i].out1 - ss[i].in1);
  }

  // ---------- The loops themselves ----------

  method Bucketize(win: Grid, logs: seq<RawLog>) returns (out: map<nat, Bucket>)
    ensures out.Keys == Keys(win, logs)
    ensures forall w <- out :: out[w] == Sum(win, logs, w)
    ensures forall w <- out :: AddsUp(out[w], |SwapLogs(win, logs, w)|, Decoded(SwapLogs(win, logs, w)))
  {
    hide AddsUp, SwapLogs, Decoded;
    out := map[];
    for i := 0 to |logs|
      invariant forall w: nat :: w in out <==> HasSwap(win, logs[..i], w)
      invariant forall w <- out :: out[w] == Sum(win, logs[..i], w)
    {
      hide Sum, Share, Window;
      var l := logs[i];
      assert logs[..i + 1] == logs[..i] + [l];
      forall w: nat
        ensures HasSwap(win, logs[..i + 1], w) <==> HasSwap(win, logs[..i], w) || Falls(win, l, w)
        ensures Sum(win, logs[..i + 1], w) == if Falls(win, l, w) then Add(Sum(win, logs[..i], w), Share(l))
                                                else Sum(win, logs[..i], w)
      {
        SumAppend(win, logs[..i], l, w);
      }
      if IsSwapTopic(l.topic0) {
        var key := win(l.time);
        var b := if key in out then out[key] else ZERO;
        if key !in out {
          SumNothing(win, logs[..i], key);
        }
        out := out[key := Add(b, Share(l))];
      }
    }
    assert logs[..|logs|] == logs;
    forall w <- out
      ensures AddsUp(out[w], |SwapLogs(win, logs, w)|, Decoded(SwapLogs(win, logs, w)))
    {
      SumAddsUp(win, logs, w);
    }
  }

  lemma UpsertNone(win: Grid, buckets: map<nat, Bucket>, rows: seq<RawLog>)
    ensures Upserted(win, buckets, rows, {}) == buckets
  {
  }

  lemma NoKeys(win: Grid)
    ensures Keys(win, []) == {} && LowerPart({}, {})
  {
  }

  lemma UpsertOne(win: Grid, buckets: map<nat, Bucket>, rows: seq<RawLog>, done: set<nat>, k: nat)
    ensures Upserted(win, buckets, rows, done)[k := Sum(win, rows, k)] == Upserted(win, buckets, rows, done + {k})
  {
  }

  method SortKeys(keys: set<nat>) returns (sorted: seq<nat>)
    ensures forall i, j | 0 <= i < j < |sorted| :: sorted[i] < sorted[j]
    ensures forall k: nat :: k in sorted <==> k in keys
    ensures |sorted| == |keys|
  {
    sorted := [];
    var todo := keys;
    while todo != {}
      invariant todo <= keys
      invariant forall i, j | 0 <= i < j < |sorted| :: sorted[i] < sorted[j]
      invariant forall k: nat :: k in keys <==> k in sorted || k in todo
      invariant |sorted| + |todo| == |keys|
      invariant forall i, k: nat | 0 <= i < |sorted| && k in todo :: sorted[i] < k
      decreases |todo|
    {
      var least: nat :| least in todo;
      var others := todo - {least};
      while others != {}
        invariant others <= todo && least in todo && least !in others
        invariant forall k: nat | k in todo && k !in others :: least <= k
        decreases |others|
      {
        var k: nat :| k in others;
        others := others - {k};
        if k < least {
          least := k;
        }
      }
      sorted := sorted + [least];
      todo := todo - {least};
    }
  }

  /** The first i windows in order. */
  ghost function Prefix(keys: seq<nat>, i: nat): set<nat>
    requires i <= |keys|
  {
    set k | k in keys[..i]
  }

  lemma PrefixStep(keys: seq<nat>, i: nat)
    requires i < |keys|
    ensures Prefix(keys, i + 1) == Prefix(keys, i) + {keys[i]}
  {
  }

  lemma NotBefore(keys: seq<nat>, i: nat)
    requires i < |keys| && forall a, b | 0 <= a < b < |keys| :: keys[a] < keys[b]
    ensures keys[i] !in Prefix(keys, i)
  {
  }

  lemma {:induction false} PrefixSize(keys: seq<nat>, i: nat)
    requires i <= |keys| && forall a, b | 0 <= a < b < |keys| :: keys[a] < keys[b]
    ensures |Prefix(keys, i)| == i
  {
    if i > 0 {
      PrefixSize(keys, i - 1);
      PrefixStep(keys, i - 1);
      NotBefore(keys, i - 1);
    }
  }

  /** The first windows of the sorted keys are a lower part of them, and all of them only at the end. */
  lemma PrefixIsLower(keys: seq<nat>, all: set<nat>, i: nat)
    requires i <= |keys| == |all| && (forall a, b | 0 <= a < b < |keys| :: keys[a] < keys[b])
    requires forall k: nat :: k in keys <==> k in all
    ensures LowerPart(Prefix(keys, i), all) && |Prefix(keys, i)| == i
    ensures Prefix(keys, i) == all <==> i == |keys|
    ensures i == 0 ==> Prefix(keys, i) == {}
  {
    PrefixSize(keys, i);
    if i == |keys| {
      assert keys[..i] == keys;
    }
  }

  class Table {
    var buckets: map<nat, Bucket>

    constructor ()
      ensures buckets == map[]
    {
      buckets := map[];
    }

    /** processPool on the rows the store answered with: bucketize, then upsert oldest first. `upserts` is
        how many writes succeed before one fails; the windows written are a lower part of those read, and
        all of them when none fails. */
    method ProcessPool(win: Grid, rows: seq<RawLog>, upserts: nat) returns (ok: bool, ghost done: set<nat>)
      modifies this
      ensures LowerPart(done, Keys(win, rows)) && buckets == Upserted(win, old(buckets), rows, done)
      ensures |done| == if upserts < |Keys(win, rows)| then upserts else |Keys(win, rows)|
      ensures ok <==> done == Keys(win, rows)
    {
      hide Sum, Keys, HasSwap, Upserted, LowerPart, Prefix, AddsUp, SwapLogs, Decoded;
      done := {};
      UpsertNone(win, buckets, rows);
      if rows == [] {
        NoKeys(win);
        return true, done;
      }
      var grouped := Bucketize(win, rows);
      var keys := SortKeys(grouped.Keys);
      PrefixIsLower(keys, Keys(win, rows), 0);
      for i := 0 to |keys|
        invariant done == Prefix(keys, i) && i <= upserts
        invariant buckets == Upserted(win, old(buckets), rows, done)
      {
        PrefixIsLower(keys, Keys(win, rows), i);
        if i == upserts {
          return false, done;
        }
        UpsertOne(win, old(buckets), rows, done, keys[i]);
        PrefixStep(keys, i);
        buckets := buckets[keys[i] := grouped[keys[i]]];
        done := done + {keys[i]};
      }
      PrefixIsLower(keys, Keys(win, rows), |keys|);
      ok := true;
    }
  }
}
