/** Incremental aggregation, effect by effect, while logs arrive and old ones are pruned
    (internal/aggregate/aggregate.go): the buckets against one batch computation. */
module AggregateRuns {
  import opened Common
  import opened TimeGrid
  import opened SwapCodec
  import opened Aggregate

  /** A pass between two of its effects: after it read the last bucket's time, and after it read the rows, with the
      windows still to upsert. `whole` when the cap left no row behind; `seen` is every log there was at the read. */
  datatype Flight =
    | Idle
    | Begun(since: nat)
    | Writing(rows: seq<RawLog>, todo: set<nat>, whole: bool, seen: seq<RawLog>)

  /** One pool's rows: the raw logs still in the table, every log ever inserted, the buckets, the pass under way. */
  datatype Store = Store(raw: seq<RawLog>, history: seq<RawLog>, buckets: map<nat, Bucket>, flight: Flight)

  datatype Op =
    | Insert(l: RawLog)
    | Prune(cutoff: nat)
    | Begin
    | Read(cap: nat, rows: seq<RawLog>, rest: seq<RawLog>)
    | Upsert
    | End

  ghost function MinOf(s: set<nat>): (m: nat)
    requires s != {}
    ensures m in s && forall x <- s :: m <= x
  {
    var x :| x in s;
    if s == {x} then x else
      var y := MinOf(s - {x});
      assert s == (s - {x}) + {x};
      if x < y then x else y
  }

  /** The newest window that is materialised or about to be. */
  ghost function Horizon(win: Grid, s: Store): nat
  {
    var t := Watermark(s.buckets);
    if s.flight.Writing? && Keys(win, s.flight.rows) != {} then Larger(t, MaxOf(Keys(win, s.flight.rows))) else t
  }

  function Larger(a: nat, b: nat): nat {
    if a < b then b else a
  }

  predicate Holds(logs: seq<RawLog>, key: LogKey) {
    exists l <- logs :: KeyOf(l) == key
  }

  /** No two logs have one key. */
  ghost predicate Keyed(logs: seq<RawLog>) {
    forall i, j | 0 <= i < j < |logs| :: KeyOf(logs[i]) != KeyOf(logs[j])
  }

  /** A row whose key is in the table is skipped; one that was pruned earlier comes back, but is no new log. */
  function Inserted(s: Store, l: RawLog): Store {
    if Holds(s.raw, KeyOf(l)) then s
    else s.(raw := s.raw + [l], history := if Holds(s.history, KeyOf(l)) then s.history else s.history + [l])
  }

  /** A key always names the same log. */
  ghost predicate Genuine(s: Store, l: RawLog) {
    forall h <- s.history :: KeyOf(h) == KeyOf(l) ==> h == l
  }

  function Pruned(s: Store, cutoff: nat): Store {
    s.(raw := Since(s.raw, cutoff))
  }

  /** The cutoff deletes no swap at or after the last bucket's start. */
  ghost predicate Spares(s: Store, cutoff: nat) {
    forall l <- s.raw :: IsSwapTopic(l.topic0) && l.time >= Watermark(s.buckets) ==> l.time >= cutoff
  }

  /** The log is not new, or no swap, or no earlier than the horizon. */
  ghost predicate InTime(win: Grid, s: Store, l: RawLog)
  {
    Holds(s.history, KeyOf(l)) || !IsSwapTopic(l.topic0) || l.time >= Horizon(win, s)
  }

  /** Swaps arrive in time, prunes spare the swaps still needed, and a read is one of the store's possible answers;
      the steps of a pass come in order, and it may end, finished or not, at any point. */
  ghost predicate Allowed(win: Grid, s: Store, op: Op)
  {
    match op
    case Insert(l) => Genuine(s, l) && InTime(win, s, l)
    case Prune(cutoff) => Spares(s, cutoff)
    case Begin => s.flight.Idle?
    case Read(cap, rows, rest) => s.flight.Begun? && Query(s.raw, s.flight.since, cap, rows, rest)
    case Upsert => s.flight.Writing? && s.flight.todo != {}
    case End => !s.flight.Idle?
  }

  /** The oldest window still to do, recomputed from the rows read. */
  ghost function UpsertNext(win: Grid, s: Store): Store
    requires s.flight.Writing? && s.flight.todo != {}
  {
    var k := MinOf(s.flight.todo);
    s.(buckets := s.buckets[k := Sum(win, s.flight.rows, k)], flight := s.flight.(todo := s.flight.todo - {k}))
  }

  ghost function Apply(win: Grid, s: Store, op: Op): Store
    requires Allowed(win, s, op)
  {
    match op
    case Insert(l) => Inserted(s, l)
    case Prune(cutoff) => Pruned(s, cutoff)
    case Begin => s.(flight := Begun(Watermark(s.buckets)))
    case Read(_, rows, rest) => s.(flight := Writing(rows, Keys(win, rows), rest == [], s.history))
    case Upsert => UpsertNext(win, s)
    case End => s.(flight := Idle)
  }

  ghost function Run(win: Grid, s: Store, ops: seq<Op>): Store
    decreases |ops|
  {
    if ops == [] then s else Run(win, if Allowed(win, s, ops[0]) then Apply(win, s, ops[0]) else s, ops[1..])
  }

  const NOTHING := Store([], [], map[], Idle)

  /** A pass has upserted everything it read, and the cap left nothing behind. */
  predicate Finished(s: Store) {
    s.flight.Writing? && s.flight.whole && s.flight.todo == {}
  }

  // ---------- What every step keeps ----------

  ghost predicate ExactAt(win: Grid, logs: seq<RawLog>, buckets: map<nat, Bucket>, w: nat)
  {
    (w in buckets <==> HasSwap(win, logs, w)) && (w in buckets ==> buckets[w] == Sum(win, logs, w))
  }

  /** Both lists give window w the same bucket. */
  ghost predicate Agree(win: Grid, a: seq<RawLog>, b: seq<RawLog>, w: nat)
  {
    Sum(win, a, w) == Sum(win, b, w)
  }

  /** With watermark t and horizon h: the windows done are up to t, those to do from t on; before the horizon the rows
      read still give every bucket; and rows that are whole give, from t on, the buckets of what was there. */
  ghost predicate WritingOk(win: Grid, t: nat, h: nat, f: Flight, history: seq<RawLog>, buckets: map<nat, Bucket>)
    requires f.Writing?
  {
    var keys := Keys(win, f.rows);
    && f.todo <= keys
    && (forall k <- f.todo :: k >= t)
    && (forall k <- keys :: k !in f.todo ==> k <= t)
    && (t in keys && t !in f.todo ==> t in buckets && buckets[t] == Sum(win, f.rows, t))
    && (forall k <- keys :: win(k) == k && HasSwap(win, history, k))
    && (forall w: nat | t <= w < h :: Agree(win, f.rows, history, w))
    && (f.whole ==> forall w: nat | w >= t :: Agree(win, f.rows, f.seen, w))
    && (f.whole ==> forall w: nat | w < h :: Agree(win, f.seen, history, w))
    && (f.whole && buckets != map[] ==> t in keys)
  }

  ghost predicate FlightOk(win: Grid, s: Store)
  {
    var t := Watermark(s.buckets);
    match s.flight
    case Idle => true
    case Begun(since) => since == t
    case Writing(_, _, _, _) => WritingOk(win, t, Horizon(win, s), s.flight, s.history, s.buckets)
  }

  /** Every bucket before the watermark is what all the logs ever inserted give, and from the watermark on the raw
      logs still give what all of them would. */
  ghost predicate Good(win: Grid, s: Store)
  {
    var t := Watermark(s.buckets);
    && win(t) == t
    && (s.buckets != map[] ==> HasSwap(win, s.history, t))
    && (forall w: nat | w < t :: ExactAt(win, s.history, s.buckets, w))
    && (forall w: nat | w >= t :: Agree(win, s.raw, s.history, w))
    && multiset(s.raw) <= multiset(s.history) && Keyed(s.history)
    && FlightOk(win, s)
  }

  lemma AgreeHas(win: Grid, a: seq<RawLog>, b: seq<RawLog>, w: nat)
    requires Agree(win, a, b, w)
    ensures HasSwap(win, a, w) <==> HasSwap(win, b, w)
  {
    SumCounts(win, a, w);
    SumCounts(win, b, w);
  }

  /** What an insert adds to a window. */
  lemma AppendAt(win: Grid, logs: seq<RawLog>, l: RawLog, w: nat)
    ensures !Falls(win, l, w) ==> Sum(win, logs + [l], w) == Sum(win, logs, w)
    ensures HasSwap(win, logs, w) ==> HasSwap(win, logs + [l], w)
    ensures !Falls(win, l, w) ==> (HasSwap(win, logs + [l], w) <==> HasSwap(win, logs, w))
  {
    hide Falls;
    SumAppend(win, logs, l, w);
  }

  lemma AppendAgrees(win: Grid, a: seq<RawLog>, b: seq<RawLog>, l: RawLog, w: nat)
    requires Agree(win, a, b, w)
    ensures Agree(win, a + [l], b + [l], w)
  {
    hide Falls, Sum;
    SumAppend(win, a, l, w);
    SumAppend(win, b, l, w);
  }

  /** A part of the logs gives a window no more swaps than all of them. */
  lemma {:induction false} PartCounts(win: Grid, a: seq<RawLog>, b: seq<RawLog>, w: nat)
    requires multiset(a) <= multiset(b)
    ensures Sum(win, a, w).swapCount <= Sum(win, b, w).swapCount
    decreases |a|
  {
    hide Sum, Falls, Share, Add;
    if a == [] {
      SumCounts(win, b, w);
      SumNothing(win, a, w);
    } else {
      assert a[0] in multiset(a) && a[0] in multiset(b);
      var j :| 0 <= j < |b| && b[j] == a[0];
      WithoutOne(a, 0);
      WithoutOne(b, j);
      PartCounts(win, Without(a, 0), Without(b, j), w);
      TakeOut(win, a, 0, w);
      TakeOut(win, b, j, w);
    }
  }

  lemma TakeOut(win: Grid, logs: seq<RawLog>, j: nat, w: nat)
    requires j < |logs|
    ensures Sum(win, logs, w).swapCount
            == Sum(win, Without(logs, j), w).swapCount + if Falls(win, logs[j], w) then 1 else 0
    ensures |Without(logs, j)| == |logs| - 1
  {
    hide Sum, Falls;
    SumWithout(win, logs, j, w);
    AddCancels(Sum(win, Without(logs, j), w), ZERO, logs[j]);
  }

  /** Where raw logs and history agree, a log of the history that is no longer in the table is not of that window. */
  lemma MissingFallsElsewhere(win: Grid, raw: seq<RawLog>, history: seq<RawLog>, l: RawLog, w: nat)
    requires multiset(raw) <= multiset(history) && l in history && l !in raw && Agree(win, raw, history, w)
    ensures !Falls(win, l, w)
  {
    hide Sum, Falls, Share, Add;
    PartIsLarger(raw, history, l);
    PartCounts(win, raw + [l], history, w);
    SumAppend(win, raw, l, w);
    AddCancels(Sum(win, raw, w), Sum(win, raw, w), l);
  }

  lemma PartIsLarger(raw: seq<RawLog>, history: seq<RawLog>, l: RawLog)
    requires multiset(raw) <= multiset(history) && l in history && l !in raw
    ensures multiset(raw + [l]) <= multiset(history)
  {
    assert l in multiset(history) && l !in multiset(raw);
    assert multiset(raw + [l]) == multiset(raw) + multiset{l};
  }

  lemma HeldIsIn(logs: seq<RawLog>, all: seq<RawLog>)
    requires multiset(logs) <= multiset(all)
    ensures forall l <- logs :: l in all
  {
    forall l <- logs
      ensures l in all
    {
      assert l in multiset(logs) && l in multiset(all);
    }
  }

  /** A log in time falls in no window before the horizon. */
  lemma InTimeFalls(win: Grid, l: RawLog, h: nat)
    requires IsGrid(win) && win(h) == h && (!IsSwapTopic(l.topic0) || l.time >= h)
    ensures forall w: nat | w < h :: !Falls(win, l, w)
  {
    WindowAtLeast(win, l.time, h);
  }

  lemma HorizonIsOnGrid(win: Grid, s: Store)
    requires Good(win, s)
    ensures win(Horizon(win, s)) == Horizon(win, s) && Horizon(win, s) >= Watermark(s.buckets)
  {
  }

  lemma InsertWriting(win: Grid, t: nat, h: nat, f: Flight, history: seq<RawLog>, buckets: map<nat, Bucket>, l: RawLog)
    requires f.Writing? && WritingOk(win, t, h, f, history, buckets)
    requires forall w: nat | w < h :: !Falls(win, l, w)
    ensures WritingOk(win, t, h, f, history + [l], buckets)
  {
    hide Sum, Falls, HasSwap, Keys;
    forall k <- Keys(win, f.rows)
      ensures HasSwap(win, history + [l], k)
    {
      AppendAt(win, history, l, k);
    }
    forall w: nat | w < h
      ensures t <= w ==> Agree(win, f.rows, history + [l], w)
      ensures f.whole ==> Agree(win, f.seen, history + [l], w)
    {
      AppendAt(win, history, l, w);
      assert t <= w ==> Agree(win, f.rows, history, w);
      assert f.whole ==> Agree(win, f.seen, history, w);
    }
  }

  lemma FreshFlight(win: Grid, s: Store, l: RawLog)
    requires IsGrid(win) && Good(win, s) && (!IsSwapTopic(l.topic0) || l.time >= Horizon(win, s))
    ensures FlightOk(win, s.(raw := s.raw + [l], history := s.history + [l]))
  {
    HorizonIsOnGrid(win, s);
    InTimeFalls(win, l, Horizon(win, s));
    hide Sum, Falls, WritingOk, IsGrid;
    if s.flight.Writing? {
      InsertWriting(win, Watermark(s.buckets), Horizon(win, s), s.flight, s.history, s.buckets, l);
    }
  }

  lemma FreshKeeps(win: Grid, s: Store, l: RawLog)
    requires IsGrid(win) && Good(win, s) && (!IsSwapTopic(l.topic0) || l.time >= Horizon(win, s))
    requires !Holds(s.history, KeyOf(l))
    ensures Good(win, s.(raw := s.raw + [l], history := s.history + [l]))
  {
    var t := Watermark(s.buckets);
    FreshFlight(win, s, l);
    HorizonIsOnGrid(win, s);
    hide Sum, Falls, HasSwap, FlightOk, Horizon, IsGrid;
    InTimeFalls(win, l, t);
    AppendAt(win, s.history, l, t);
    forall w: nat | w < t
      ensures ExactAt(win, s.history + [l], s.buckets, w)
    {
      AppendAt(win, s.history, l, w);
      assert ExactAt(win, s.history, s.buckets, w);
    }
    forall w: nat | w >= t
      ensures Agree(win, s.raw + [l], s.history + [l], w)
    {
      AppendAgrees(win, s.raw, s.history, l, w);
    }
    KeyedAppend(s.history, l);
  }

  lemma KeyedAppend(logs: seq<RawLog>, l: RawLog)
    requires Keyed(logs) && !Holds(logs, KeyOf(l))
    ensures Keyed(logs + [l])
  {
  }

  lemma RawFlight(win: Grid, s: Store, raw: seq<RawLog>)
    requires FlightOk(win, s)
    ensures FlightOk(win, s.(raw := raw))
  {
  }

  lemma ReturnKeeps(win: Grid, s: Store, l: RawLog)
    requires Good(win, s) && l in s.history && l !in s.raw
    ensures Good(win, s.(raw := s.raw + [l]))
  {
    RawFlight(win, s, s.raw + [l]);
    hide Sum, Falls, HasSwap, FlightOk, ExactAt, Keyed;
    PartIsLarger(s.raw, s.history, l);
    forall w: nat | w >= Watermark(s.buckets)
      ensures Agree(win, s.raw + [l], s.history, w)
    {
      assert Agree(win, s.raw, s.history, w);
      MissingFallsElsewhere(win, s.raw, s.history, l, w);
      AppendAt(win, s.raw, l, w);
    }
  }

  lemma InsertKeeps(win: Grid, s: Store, l: RawLog)
    requires IsGrid(win) && Good(win, s) && Genuine(s, l) && InTime(win, s, l)
    ensures Good(win, Inserted(s, l))
  {
    hide Good, IsGrid;
    GoodHolds(win, s);
    if !Holds(s.raw, KeyOf(l)) {
      if Holds(s.history, KeyOf(l)) {
        ReturnKeeps(win, s, l);
      } else {
        FreshKeeps(win, s, l);
      }
    }
  }

  lemma GoodHolds(win: Grid, s: Store)
    requires Good(win, s)
    ensures Keyed(s.history) && forall l <- s.raw :: l in s.history
  {
    HeldIsIn(s.raw, s.history);
  }

  lemma SinceLast(init: seq<RawLog>, l: RawLog, cutoff: nat)
    ensures Since(init + [l], cutoff) == if l.time >= cutoff then Since(init, cutoff) + [l] else Since(init, cutoff)
  {
    assert (init + [l])[..|init|] == init;
  }

  /** Deleting the logs before the cutoff changes a window's sum exactly when it deletes a swap of it. */
  lemma {:induction false} CutSum(win: Grid, logs: seq<RawLog>, cutoff: nat, w: nat)
    ensures Sum(win, Since(logs, cutoff), w).swapCount <= Sum(win, logs, w).swapCount
    ensures Agree(win, Since(logs, cutoff), logs, w)
            <==> Sum(win, Since(logs, cutoff), w).swapCount == Sum(win, logs, w).swapCount
    ensures Agree(win, Since(logs, cutoff), logs, w) <==> forall l <- logs :: Falls(win, l, w) ==> l.time >= cutoff
  {
    hide Falls, Sum, Since, Add;
    if logs == [] {
      assert Since(logs, cutoff) == [] by {
        SinceNothing(cutoff);
      }
    } else {
      var init, l := logs[..|logs| - 1], logs[|logs| - 1];
      CutSum(win, init, cutoff, w);
      assert logs == init + [l];
      SinceLast(init, l, cutoff);
      SumAppend(win, init, l, w);
      SumAppend(win, Since(init, cutoff), l, w);
      AddCancels(Sum(win, Since(init, cutoff), w), Sum(win, init, w), l);
      AddCancels(Sum(win, init, w), Sum(win, Since(init, cutoff), w), l);
    }
  }

  lemma SinceNothing(cutoff: nat)
    ensures Since([], cutoff) == []
  {
  }

  lemma AddCancels(a: Bucket, b: Bucket, l: RawLog)
    ensures Add(a, Share(l)) == Add(b, Share(l)) <==> a == b
    ensures Add(a, Share(l)).swapCount == a.swapCount + 1
  {
  }

  lemma PruneKeeps(win: Grid, s: Store, cutoff: nat)
    requires IsGrid(win) && Good(win, s) && Spares(s, cutoff)
    ensures Good(win, Pruned(s, cutoff))
  {
    hide Sum, HasSwap, Since, FlightOk, Horizon, Keyed, IsGrid;
    var t, r := Watermark(s.buckets), Pruned(s, cutoff);
    forall w: nat | w >= t
      ensures Agree(win, r.raw, s.history, w)
    {
      forall l <- s.raw | Falls(win, l, w)
        ensures l.time >= cutoff
      {
        WindowAtLeast(win, l.time, t);
      }
      CutSum(win, s.raw, cutoff, w);
      assert Agree(win, s.raw, s.history, w);
    }
    RawFlight(win, s, r.raw);
    SinceIsPart(s.raw, cutoff);
  }

  lemma {:induction false} SinceIsPart(logs: seq<RawLog>, t: nat)
    ensures multiset(Since(logs, t)) <= multiset(logs)
  {
    if logs != [] {
      SinceIsPart(logs[..|logs| - 1], t);
      assert logs == logs[..|logs| - 1] + [logs[|logs| - 1]];
    }
  }

  /** A window that the unread rows do not touch is complete in the rows that were read. */
  lemma RowsSuffice(win: Grid, raw: seq<RawLog>, t: nat, cap: nat, rows: seq<RawLog>, rest: seq<RawLog>, w: nat)
    requires IsGrid(win) && win(t) == t && w >= t && Query(raw, t, cap, rows, rest) && !HasSwap(win, rest, w)
    ensures Agree(win, rows, raw, w)
  {
    hide Falls, Share, Sum, Since, Window, IsGrid;
    SumSince(win, raw, t, w);
    SumAnyOrder(win, rows + rest, Since(raw, t), w);
    SumConcat(win, rows, rest, w);
    SumNothing(win, rest, w);
    AddAssociates(Sum(win, rows, w), ZERO, ZERO);
  }

  lemma LaterRows(win: Grid, rest: seq<RawLog>, k: nat)
    requires IsGrid(win) && win(k) == k && forall r <- rest :: r.time >= k
    ensures forall v: nat :: v < k ==> !HasSwap(win, rest, v)
  {
    forall r <- rest
      ensures win(r.time) >= k
    {
      WindowAtLeast(win, r.time, k);
    }
  }

  /** The windows read are on the grid, from the watermark on, and the unread rows come no earlier. */
  lemma ReadKeys(win: Grid, raw: seq<RawLog>, t: nat, cap: nat, rows: seq<RawLog>, rest: seq<RawLog>)
    requires IsGrid(win) && win(t) == t && Query(raw, t, cap, rows, rest)
    ensures forall k <- Keys(win, rows) ::
              k >= t && win(k) == k && HasSwap(win, raw, k) && forall v: nat :: v < k ==> !HasSwap(win, rest, v)
  {
    hide Sum, Since, IsGrid;
    SameMembers(rows + rest, Since(raw, t));
    forall k <- Keys(win, rows)
      ensures k >= t && win(k) == k && HasSwap(win, raw, k) && forall v: nat :: v < k ==> !HasSwap(win, rest, v)
    {
      var l :| l in rows && Falls(win, l, k);
      assert l in rows + rest;
      SinceHas(raw, t, l);
      WindowAtLeast(win, l.time, t);
      WindowStarts(win, l.time);
      LaterRows(win, rest, k);
    }
  }

  lemma NothingUnread(win: Grid, w: nat)
    ensures !HasSwap(win, [], w)
  {
  }

  lemma AgreeChain(win: Grid, a: seq<RawLog>, b: seq<RawLog>, c: seq<RawLog>, w: nat)
    requires Agree(win, a, b, w) && Agree(win, b, c, w)
    ensures Agree(win, a, c, w)
  {
  }

  lemma ReadKeeps(win: Grid, s: Store, cap: nat, rows: seq<RawLog>, rest: seq<RawLog>)
    requires IsGrid(win) && Good(win, s) && Allowed(win, s, Read(cap, rows, rest))
    ensures Good(win, Apply(win, s, Read(cap, rows, rest)))
  {
    hide Sum, Falls, HasSwap, Since, Query, Keys, ExactAt, Agree, IsGrid;
    var t, keys := Watermark(s.buckets), Keys(win, rows);
    var r := Apply(win, s, Read(cap, rows, rest));
    var h := Horizon(win, r);
    ReadKeys(win, s.raw, t, cap, rows, rest);
    forall w: nat | w >= t && (w < h || rest == [])
      ensures Agree(win, rows, s.history, w)
    {
      NothingUnread(win, w);
      RowsSuffice(win, s.raw, t, cap, rows, rest, w);
      AgreeChain(win, rows, s.raw, s.history, w);
    }
    forall k <- keys
      ensures HasSwap(win, s.history, k)
    {
      AgreeHas(win, s.raw, s.history, k);
    }
    forall w: nat
      ensures Agree(win, s.history, s.history, w)
    {
      AgreeWithItself(win, s.history, w);
    }
    if rest == [] && s.buckets != map[] {
      AgreeHas(win, rows, s.history, t);
      KeysHas(win, rows, t);
    }
  }

  lemma AgreeWithItself(win: Grid, logs: seq<RawLog>, w: nat)
    ensures Agree(win, logs, logs, w)
  {
  }

  lemma KeysHas(win: Grid, rows: seq<RawLog>, w: nat)
    ensures w in Keys(win, rows) <==> HasSwap(win, rows, w)
  {
  }

  /** Upserting window k >= t makes it the last bucket. */
  lemma UpsertWatermark(buckets: map<nat, Bucket>, k: nat, b: Bucket)
    requires k >= Watermark(buckets)
    ensures Watermark(buckets[k := b]) == k
  {
    var after := buckets[k := b];
    assert k in after && Watermark(after) in after;
  }

  /** Every window before the one upserted next is exact. */
  lemma BelowNext(win: Grid, s: Store, w: nat)
    requires Good(win, s) && s.flight.Writing? && s.flight.todo != {} && w < MinOf(s.flight.todo)
    ensures ExactAt(win, s.history, s.buckets, w)
  {
    hide Sum, Falls, HasSwap, Keys;
    var t, k, rows := Watermark(s.buckets), MinOf(s.flight.todo), s.flight.rows;
    if w >= t {
      assert k <= Horizon(win, s);
      AgreeHas(win, rows, s.history, w);
      KeysHas(win, rows, w);
      assert w !in s.flight.todo;
    }
  }

  lemma UpsertFlight(win: Grid, s: Store)
    requires Good(win, s) && s.flight.Writing? && s.flight.todo != {}
    ensures FlightOk(win, UpsertNext(win, s)) && Watermark(UpsertNext(win, s).buckets) == MinOf(s.flight.todo)
  {
    hide Sum, Falls, HasSwap, Keys, ExactAt, Agree;
    var k := MinOf(s.flight.todo);
    UpsertWatermark(s.buckets, k, Sum(win, s.flight.rows, k));
  }

  lemma UpsertKeeps(win: Grid, s: Store)
    requires Good(win, s) && s.flight.Writing? && s.flight.todo != {}
    ensures Good(win, UpsertNext(win, s))
  {
    UpsertFlight(win, s);
    hide Sum, Falls, HasSwap, Keys, Agree, Horizon;
    var k, r := MinOf(s.flight.todo), UpsertNext(win, s);
    forall w: nat | w < k
      ensures ExactAt(win, s.history, r.buckets, w)
    {
      BelowNext(win, s, w);
    }
    assert k in Keys(win, s.flight.rows);
    hide FlightOk;
  }

  lemma StepKeepsGood(win: Grid, s: Store, op: Op)
    requires IsGrid(win) && Good(win, s) && Allowed(win, s, op)
    ensures Good(win, Apply(win, s, op))
  {
    hide Sum, HasSwap, ExactAt, Agree, Spares, InTime, IsGrid;
    match op
    case Insert(l) => InsertKeeps(win, s, l);
    case Prune(cutoff) => PruneKeeps(win, s, cutoff);
    case Read(cap, rows, rest) => ReadKeeps(win, s, cap, rows, rest);
    case Upsert => UpsertKeeps(win, s);
    case _ =>
  }

  lemma {:induction false} RunKeepsGood(win: Grid, s: Store, ops: seq<Op>)
    requires IsGrid(win) && Good(win, s)
    ensures Good(win, Run(win, s, ops))
    decreases |ops|
  {
    hide Good, Apply, Allowed, IsGrid;
    if ops != [] {
      if Allowed(win, s, ops[0]) {
        StepKeepsGood(win, s, ops[0]);
      }
      RunKeepsGood(win, if Allowed(win, s, ops[0]) then Apply(win, s, ops[0]) else s, ops[1..]);
    }
  }

  lemma NothingIsGood(win: Grid)
    requires IsGrid(win)
    ensures Good(win, NOTHING)
  {
  }

  lemma DoneFromMark(win: Grid, t: nat, h: nat, f: Flight, history: seq<RawLog>, buckets: map<nat, Bucket>, w: nat)
    requires f.Writing? && WritingOk(win, t, h, f, history, buckets) && f.whole && f.todo == {}
    requires w >= t == Watermark(buckets)
    ensures ExactAt(win, f.seen, buckets, w)
  {
    hide Sum, Falls, HasSwap, Keys;
    AgreeHas(win, f.rows, f.seen, w);
    KeysHas(win, f.rows, w);
  }

  /** A finished pass that the cap did not truncate has left the batch computation of what there was when it read. */
  lemma FinishedIsBatch(win: Grid, s: Store)
    requires Good(win, s) && Finished(s)
    ensures IsBatch(win, s.flight.seen, s.buckets)
  {
    hide Sum, Falls, HasSwap, Keys, Horizon;
    var t, seen := Watermark(s.buckets), s.flight.seen;
    HorizonIsOnGrid(win, s);
    forall w: nat
      ensures ExactAt(win, seen, s.buckets, w)
    {
      if w < t {
        assert ExactAt(win, s.history, s.buckets, w) && Agree(win, seen, s.history, w);
        AgreeHas(win, seen, s.history, w);
      } else {
        DoneFromMark(win, t, Horizon(win, s), s.flight, s.history, s.buckets, w);
      }
    }
    BatchIsExact(win, seen, s.buckets);
  }

  lemma BatchIsExact(win: Grid, logs: seq<RawLog>, buckets: map<nat, Bucket>)
    ensures IsBatch(win, logs, buckets) <==> forall w: nat :: ExactAt(win, logs, buckets, w)
  {
    if IsBatch(win, logs, buckets) {
      forall w: nat
        ensures ExactAt(win, logs, buckets, w)
      {
        assert w in buckets <==> HasSwap(win, logs, w);
      }
    }
    if forall w: nat :: ExactAt(win, logs, buckets, w) {
      forall w: nat
        ensures (w in buckets <==> HasSwap(win, logs, w)) && (w in buckets ==> buckets[w] == Sum(win, logs, w))
      {
        assert ExactAt(win, logs, buckets, w);
      }
    }
  }

  lemma GoodIsExactBefore(win: Grid, s: Store)
    requires Good(win, s)
    ensures forall w: nat | w < Watermark(s.buckets) ::
              (w in s.buckets <==> HasSwap(win, s.history, w))
                && (w in s.buckets ==> s.buckets[w] == Sum(win, s.history, w))
  {
    hide Sum, HasSwap, FlightOk;
    forall w: nat | w < Watermark(s.buckets)
      ensures (w in s.buckets <==> HasSwap(win, s.history, w))
              && (w in s.buckets ==> s.buckets[w] == Sum(win, s.history, w))
    {
      assert ExactAt(win, s.history, s.buckets, w);
    }
  }

  /** After any interleaving of inserts, prunes and the single effects of passes, capped, abandoned or finished: every
      bucket before the last one is exact, and whenever a pass that the cap did not truncate is through, the buckets
      are the batch computation over every log there was when it read. */
  lemma IncrementalIsBatch(win: Grid, ops: seq<Op>)
    requires IsGrid(win)
    ensures var s := Run(win, NOTHING, ops);
            && (forall w: nat | w < Watermark(s.buckets) ::
                  && (w in s.buckets <==> HasSwap(win, s.history, w))
                  && (w in s.buckets ==> s.buckets[w] == Sum(win, s.history, w)))
            && (Finished(s) ==> IsBatch(win, s.flight.seen, s.buckets))
            && Keyed(s.history) && forall l <- s.raw :: l in s.history
  {
    hide Good, Run, IsBatch, IsGrid;
    NothingIsGood(win);
    RunKeepsGood(win, NOTHING, ops);
    var s := Run(win, NOTHING, ops);
    GoodIsExactBefore(win, s);
    GoodHolds(win, s);
    if Finished(s) {
      FinishedIsBatch(win, s);
    }
  }
}
