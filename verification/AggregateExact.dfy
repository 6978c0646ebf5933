/** Which inserts and prunes the incremental buckets survive (internal/aggregate/aggregate.go): exactly those that leave
    every later complete pass equal to the batch computation. */
module AggregateExact {
  import opened Common
  import opened TimeGrid
  import opened SwapCodec
  import opened Aggregate
  import opened AggregateRuns

  /** However things go on, a pass that the cap did not truncate ends on the batch computation of what it read. */
  ghost predicate StaysExact(win: Grid, s: Store)
  {
    forall ops: seq<Op> :: ExactAfter(win, s, ops)
  }

  ghost predicate ExactAfter(win: Grid, s: Store, ops: seq<Op>)
  {
    var r := Run(win, s, ops);
    Finished(r) ==> IsBatch(win, r.flight.seen, r.buckets)
  }

  lemma GoodStaysExact(win: Grid, s: Store)
    requires IsGrid(win) && Good(win, s)
    ensures StaysExact(win, s)
  {
    hide Good, Run, IsBatch, IsGrid;
    forall ops: seq<Op>
      ensures ExactAfter(win, s, ops)
    {
      RunKeepsGood(win, s, ops);
      if Finished(Run(win, s, ops)) {
        FinishedIsBatch(win, Run(win, s, ops));
      }
    }
  }

  // ---------- A whole pass as a run ----------

  lemma {:induction false} RunConcat(win: Grid, s: Store, a: seq<Op>, b: seq<Op>)
    ensures Run(win, s, a + b) == Run(win, Run(win, s, a), b)
    decreases |a|
  {
    hide Allowed, Apply;
    if a == [] {
      assert a + b == b;
    } else {
      assert (a + b)[1..] == a[1..] + b;
      RunConcat(win, if Allowed(win, s, a[0]) then Apply(win, s, a[0]) else s, a[1..], b);
    }
  }

  lemma RunOne(win: Grid, s: Store, op: Op)
    ensures Run(win, s, [op]) == if Allowed(win, s, op) then Apply(win, s, op) else s
  {
    hide Allowed, Apply;
    assert [op][1..] == [];
  }

  function Upserts(n: nat): seq<Op> {
    if n == 0 then [] else [Upsert] + Upserts(n - 1)
  }

  lemma UpsertedMore(win: Grid, buckets: map<nat, Bucket>, rows: seq<RawLog>, todo: set<nat>, k: nat)
    requires k in todo
    ensures Upserted(win, buckets[k := Sum(win, rows, k)], rows, todo - {k}) == Upserted(win, buckets, rows, todo)
  {
    hide Sum;
  }

  /** Upserting to the end writes every window that was left to do. */
  lemma {:induction false} UpsertAll(win: Grid, s: Store)
    requires s.flight.Writing?
    ensures var f := s.flight;
            Run(win, s, Upserts(|f.todo|))
            == s.(buckets := Upserted(win, s.buckets, f.rows, f.todo), flight := f.(todo := {}))
    decreases |s.flight.todo|
  {
    hide Sum, Keys, Upserted;
    var f := s.flight;
    if f.todo == {} {
      UpsertNone(win, s.buckets, f.rows);
    } else {
      var k, r := MinOf(f.todo), UpsertNext(win, s);
      assert Upserts(|f.todo|)[1..] == Upserts(|f.todo| - 1);
      UpsertedMore(win, s.buckets, f.rows, f.todo, k);
      UpsertAll(win, r);
    }
  }

  /** What the next pass reads when no cap cuts it. */
  ghost function AllRows(s: Store): seq<RawLog> {
    SortByTime(Since(s.raw, Watermark(s.buckets)))
  }

  ghost function FullPass(win: Grid, s: Store): seq<Op>
  {
    [Begin, Read(|AllRows(s)| + 1, AllRows(s), [])] + Upserts(|Keys(win, AllRows(s))|)
  }

  lemma AllRowsAnswer(s: Store)
    ensures Query(s.raw, Watermark(s.buckets), |AllRows(s)| + 1, AllRows(s), [])
  {
    hide Since, SortByTime;
    SortByTimeSorts(Since(s.raw, Watermark(s.buckets)));
    assert AllRows(s) + [] == AllRows(s);
  }

  lemma FullPassDoes(win: Grid, s: Store)
    requires s.flight.Idle?
    ensures var rows := AllRows(s);
            Run(win, s, FullPass(win, s))
            == s.(buckets := Upserted(win, s.buckets, rows, Keys(win, rows)),
                  flight := Writing(rows, {}, true, s.history))
  {
    hide Sum, Keys, Upserted, Query, AllRows, Run;
    var rows := AllRows(s);
    var read := Read(|rows| + 1, rows, []);
    var s1 := Apply(win, s, Begin);
    AllRowsAnswer(s);
    var s2 := Apply(win, s1, read);
    RunOne(win, s, Begin);
    RunOne(win, s1, read);
    RunConcat(win, s, [Begin], [read]);
    assert [Begin] + [read] == [Begin, read];
    RunConcat(win, s, [Begin, read], Upserts(|Keys(win, rows)|));
    UpsertAll(win, s2);
  }

  /** Such a pass leaves the windows before the watermark alone and recomputes the others from the raw logs. */
  lemma FullPassAt(win: Grid, s: Store, w: nat)
    requires IsGrid(win) && s.flight.Idle? && win(Watermark(s.buckets)) == Watermark(s.buckets)
    ensures var r, t := Run(win, s, FullPass(win, s)), Watermark(s.buckets);
            && Finished(r) && r.flight.seen == s.history
            && (w < t ==> (w in r.buckets <==> w in s.buckets) && (w in s.buckets ==> r.buckets[w] == s.buckets[w]))
            && (w >= t && HasSwap(win, s.raw, w) ==> w in r.buckets && r.buckets[w] == Sum(win, s.raw, w))
  {
    hide Sum, Keys, Query, AllRows, Run, HasSwap, IsGrid;
    var t, rows := Watermark(s.buckets), AllRows(s);
    FullPassDoes(win, s);
    AllRowsAnswer(s);
    ReadKeys(win, s.raw, t, |rows| + 1, rows, []);
    if w >= t {
      NothingUnread(win, w);
      RowsSuffice(win, s.raw, t, |rows| + 1, rows, [], w);
      AgreeHas(win, rows, s.raw, w);
      KeysHas(win, rows, w);
    }
  }

  /** Abandon the pass under way, if any. */
  function Quiet(s: Store): seq<Op> {
    if s.flight.Idle? then [] else [End]
  }

  lemma QuietDoes(win: Grid, s: Store)
    ensures Run(win, s, Quiet(s)) == s.(flight := Idle)
  {
    RunOne(win, s, End);
  }

  // ---------- Prunes ----------

  lemma LostSwapShows(win: Grid, raw: seq<RawLog>, history: seq<RawLog>, cutoff: nat, l: RawLog, next: RawLog, w: nat)
    requires Agree(win, raw, history, w) && l in raw && Falls(win, l, w) && l.time < cutoff && Falls(win, next, w)
    ensures Sum(win, Since(raw, cutoff) + [next], w) != Sum(win, history + [next], w)
    ensures HasSwap(win, Since(raw, cutoff) + [next], w)
  {
    hide Sum, Since, Add, Share, Falls;
    CutSum(win, raw, cutoff, w);
    SumAppend(win, Since(raw, cutoff), next, w);
    SumAppend(win, history, next, w);
    AddCancels(Sum(win, Since(raw, cutoff), w), Sum(win, history, w), next);
  }

  /** A hash longer than all of them. */
  function FreshHash(logs: seq<RawLog>): string {
    if logs == [] then "x" else logs[0].txHash + FreshHash(logs[1..])
  }

  lemma {:induction false} FreshHashIsLonger(logs: seq<RawLog>)
    ensures FreshHash(logs) != [] && forall l <- logs :: |l.txHash| < |FreshHash(logs)|
  {
    if logs != [] {
      FreshHashIsLonger(logs[1..]);
      assert logs == [logs[0]] + logs[1..];
    }
  }

  lemma FreshIsNew(logs: seq<RawLog>, l: RawLog)
    ensures !Holds(logs, KeyOf(l.(txHash := FreshHash(logs))))
  {
    FreshHashIsLonger(logs);
  }

  lemma NewEverywhere(raw: seq<RawLog>, history: seq<RawLog>, key: LogKey)
    requires (forall l <- raw :: l in history) && !Holds(history, key)
    ensures !Holds(raw, key)
  {
  }

  /** A deleted swap comes to light at the latest when another one of its window arrives and it is recomputed. */
  lemma UnsafePrune(win: Grid, s: Store, cutoff: nat, l: RawLog) returns (ops: seq<Op>)
    requires IsGrid(win) && Good(win, s) && l in s.raw && IsSwapTopic(l.topic0)
    requires Watermark(s.buckets) <= l.time < cutoff
    ensures !ExactAfter(win, Pruned(s, cutoff), ops)
  {
    hide Sum, Since, Run, FlightOk, HasSwap, Falls, Query, Keys, Keyed, FreshHash, IsGrid;
    var t, w, p := Watermark(s.buckets), win(l.time), Pruned(s, cutoff);
    var p1, next := p.(flight := Idle), l.(txHash := FreshHash(s.history));
    var q := p1.(raw := p1.raw + [next], history := p1.history + [next]);
    FreshArrives(win, s, cutoff, l);
    QuietDoes(win, p);
    RunOne(win, p1, Insert(next));
    RunConcat(win, p, Quiet(p), [Insert(next)]);
    ops := (Quiet(p) + [Insert(next)]) + FullPass(win, q);
    RunConcat(win, p, Quiet(p) + [Insert(next)], FullPass(win, q));
    WindowAtLeast(win, l.time, t);
    FallsInItsWindow(win, l);
    FallsInItsWindow(win, next);
    FullPassAt(win, q, w);
    assert Agree(win, s.raw, s.history, w);
    LostSwapShows(win, s.raw, s.history, cutoff, l, next, w);
    NotBatch(win, q.history, Run(win, q, FullPass(win, q)).buckets, w);
  }

  lemma FreshArrives(win: Grid, s: Store, cutoff: nat, l: RawLog)
    requires Good(win, s) && l.time >= Watermark(s.buckets)
    ensures var p, next := Pruned(s, cutoff).(flight := Idle), l.(txHash := FreshHash(s.history));
            && Allowed(win, p, Insert(next))
            && Inserted(p, next) == p.(raw := p.raw + [next], history := p.history + [next])
  {
    hide Good, Since, FreshHash;
    var key := KeyOf(l.(txHash := FreshHash(s.history)));
    FreshIsNew(s.history, l);
    GoodHolds(win, s);
    SinceIsPart(s.raw, cutoff);
    HeldIsIn(Since(s.raw, cutoff), s.raw);
    NewEverywhere(Since(s.raw, cutoff), s.history, key);
  }

  lemma FallsInItsWindow(win: Grid, l: RawLog)
    requires IsSwapTopic(l.topic0)
    ensures Falls(win, l, win(l.time))
  {
  }

  lemma NotBatch(win: Grid, logs: seq<RawLog>, buckets: map<nat, Bucket>, w: nat)
    requires !ExactAt(win, logs, buckets, w)
    ensures !IsBatch(win, logs, buckets)
  {
    BatchIsExact(win, logs, buckets);
  }

  /** After a prune every later complete pass is still the batch computation exactly when the prune deleted no
      swap at or after the last bucket's start. Deleting anything else, and any cutoff at or before that start, is
      harmless. */
  lemma PruneIsSafeIff(win: Grid, s: Store, cutoff: nat)
    requires IsGrid(win) && Good(win, s)
    ensures StaysExact(win, Pruned(s, cutoff))
            <==> forall l <- s.raw :: IsSwapTopic(l.topic0) && l.time >= Watermark(s.buckets) ==> l.time >= cutoff
    ensures cutoff <= Watermark(s.buckets) ==> StaysExact(win, Pruned(s, cutoff))
  {
    hide Good, ExactAfter, IsGrid;
    if Spares(s, cutoff) {
      PruneKeeps(win, s, cutoff);
      GoodStaysExact(win, Pruned(s, cutoff));
    } else {
      var l :| l in s.raw && IsSwapTopic(l.topic0) && l.time >= Watermark(s.buckets) && l.time < cutoff;
      var ops := UnsafePrune(win, s, cutoff, l);
      assert !ExactAfter(win, Pruned(s, cutoff), ops);
    }
  }

  // ---------- Inserts ----------

  /** Upserts read neither the raw logs nor the history, so a log that arrived in between changes nothing for them. */
  lemma {:induction false} UpsertsIgnoreLogs(win: Grid, s: Store, l: RawLog, n: nat)
    ensures Run(win, Inserted(s, l), Upserts(n)) == Inserted(Run(win, s, Upserts(n)), l)
    decreases n
  {
    hide Sum, Keys;
    if n > 0 {
      assert Upserts(n)[1..] == Upserts(n - 1);
      UpsertsIgnoreLogs(win, if Allowed(win, s, Upsert) then Apply(win, s, Upsert) else s, l, n - 1);
    }
  }

  lemma LateSwapShows(b: Bucket, l: RawLog)
    ensures Add(b, Share(l)) != b
  {
    AddCancels(b, b, l);
  }

  /** A swap of a window before the watermark is never folded in. */
  lemma StaleShows(win: Grid, s: Store, l: RawLog) returns (ops: seq<Op>)
    requires IsGrid(win) && Good(win, s) && IsSwapTopic(l.topic0) && l.time < Watermark(s.buckets)
    requires !Holds(s.history, KeyOf(l)) && !Holds(s.raw, KeyOf(l))
    ensures !ExactAfter(win, Inserted(s, l), ops)
  {
    hide Sum, Since, Run, FlightOk, HasSwap, Falls, Query, Keys, Add, Share, IsGrid;
    var t, w, q := Watermark(s.buckets), win(l.time), Inserted(s, l);
    var q1 := q.(flight := Idle);
    QuietDoes(win, q);
    ops := Quiet(q) + FullPass(win, q1);
    RunConcat(win, q, Quiet(q), FullPass(win, q1));
    WindowAtLeast(win, l.time, t);
    FallsInItsWindow(win, l);
    FullPassAt(win, q1, w);
    assert ExactAt(win, s.history, s.buckets, w);
    SumAppend(win, s.history, l, w);
    LateSwapShows(Sum(win, s.history, w), l);
    NotBatch(win, q.history, Run(win, q1, FullPass(win, q1)).buckets, w);
  }

  /** After upserting a set of windows the last bucket is the newest of them, or an older one that is newer still. */
  lemma UpsertedWatermark(win: Grid, buckets: map<nat, Bucket>, rows: seq<RawLog>, todo: set<nat>)
    ensures Watermark(Upserted(win, buckets, rows, todo))
         == if todo == {} then Watermark(buckets) else Larger(Watermark(buckets), MaxOf(todo))
  {
    hide Sum;
    var after := Upserted(win, buckets, rows, todo);
    if todo == {} {
      UpsertNone(win, buckets, rows);
    } else {
      assert after.Keys == buckets.Keys + todo;
      assert MaxOf(todo) in after && Watermark(after) in after;
      assert buckets != map[] ==> Watermark(buckets) in after;
    }
  }

  /** The windows already done are no newer than the watermark, so the newest of all is among those to do. */
  lemma SameNewest(keys: set<nat>, todo: set<nat>, t: nat)
    requires todo <= keys && keys != {} && forall k <- keys :: k !in todo ==> k <= t
    ensures Larger(t, MaxOf(keys)) == if todo == {} then t else Larger(t, MaxOf(todo))
  {
  }

  /** A pass under way that goes through puts the watermark at its horizon. */
  lemma HorizonIsReached(win: Grid, s: Store)
    requires Good(win, s)
    ensures var r := Run(win, s, if s.flight.Writing? then Upserts(|s.flight.todo|) else []);
            Watermark(r.buckets) == Horizon(win, s)
  {
    hide Sum, HasSwap, Upserted, ExactAt, Agree, Keys;
    if s.flight.Writing? {
      var f := s.flight;
      UpsertAll(win, s);
      UpsertedWatermark(win, s.buckets, f.rows, f.todo);
      if Keys(win, f.rows) != {} {
        SameNewest(Keys(win, f.rows), f.todo, Watermark(s.buckets));
      }
    }
  }

  lemma {:induction false} UpsertsKeepLogs(win: Grid, s: Store, n: nat)
    ensures var r := Run(win, s, Upserts(n)); r.raw == s.raw && r.history == s.history
    decreases n
  {
    hide Sum, Keys;
    if n > 0 {
      assert Upserts(n)[1..] == Upserts(n - 1);
      UpsertsKeepLogs(win, if Allowed(win, s, Upsert) then Apply(win, s, Upsert) else s, n - 1);
    }
  }

  lemma LateInsert(win: Grid, s: Store, l: RawLog) returns (ops: seq<Op>)
    requires IsGrid(win) && Good(win, s) && IsSwapTopic(l.topic0) && l.time < Horizon(win, s)
    requires !Holds(s.history, KeyOf(l))
    ensures !ExactAfter(win, Inserted(s, l), ops)
  {
    hide Good, Run, Horizon, IsGrid;
    GoodHolds(win, s);
    NewEverywhere(s.raw, s.history, KeyOf(l));
    var n := if s.flight.Writing? then |s.flight.todo| else 0;
    var first := Upserts(n);
    HorizonIsReached(win, s);
    RunKeepsGood(win, s, first);
    UpsertsIgnoreLogs(win, s, l, n);
    UpsertsKeepLogs(win, s, n);
    var rest := StaleShows(win, Run(win, s, first), l);
    ops := first + rest;
    RunConcat(win, Inserted(s, l), first, rest);
  }

  /** Every later complete pass is the batch computation after an insert exactly when the log is not new (its row is in
      the table, or was and has been pruned), or is no swap, or is no earlier than the newest window that is
      materialised or that a pass under way has read. */
  lemma InsertIsSafeIff(win: Grid, s: Store, l: RawLog)
    requires IsGrid(win) && Good(win, s) && Genuine(s, l)
    ensures StaysExact(win, Inserted(s, l))
            <==> Holds(s.history, KeyOf(l)) || !IsSwapTopic(l.topic0) || l.time >= Horizon(win, s)
  {
    hide Good, ExactAfter, Horizon, Holds, Inserted, IsGrid;
    if InTime(win, s, l) {
      InsertKeeps(win, s, l);
      GoodStaysExact(win, Inserted(s, l));
    } else {
      var ops := LateInsert(win, s, l);
      assert !ExactAfter(win, Inserted(s, l), ops);
    }
  }
}
