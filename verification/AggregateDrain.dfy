/** How the row cap on RawLogsSince (internal/store/queries.go) bears on aggregation: which tables a pass gets on with,
    and from which repeated passes catch up. Nothing arrives or is pruned meanwhile. */
module AggregateDrain {
  import opened Common
  import opened TimeGrid
  import opened SwapCodec
  import opened Aggregate
  import opened AggregateRuns
  import opened AggregateExact

  // ---------- Counting rows ----------

  /** How many rows have a time from lo up to, but not including, hi. */
  function Count(logs: seq<RawLog>, lo: nat, hi: nat): nat {
    if logs == [] then 0 else Count(logs[1..], lo, hi) + if lo <= logs[0].time < hi then 1 else 0
  }

  lemma {:induction false} CountConcat(a: seq<RawLog>, b: seq<RawLog>, lo: nat, hi: nat)
    ensures Count(a + b, lo, hi) == Count(a, lo, hi) + Count(b, lo, hi)
  {
    if a == [] {
      assert a + b == b;
    } else {
      assert (a + b)[1..] == a[1..] + b;
      CountConcat(a[1..], b, lo, hi);
    }
  }

  lemma {:induction false} CountWithout(s: seq<RawLog>, j: nat, lo: nat, hi: nat)
    requires j < |s|
    ensures Count(s, lo, hi) == Count(Without(s, j), lo, hi) + if lo <= s[j].time < hi then 1 else 0
  {
    if j == 0 {
      assert Without(s, 0) == s[1..];
    } else {
      CountWithout(s[1..], j - 1, lo, hi);
      assert Without(s, j)[1..] == Without(s[1..], j - 1) && Without(s, j)[0] == s[0];
    }
  }

  lemma {:induction false} CountAnyOrder(a: seq<RawLog>, b: seq<RawLog>, lo: nat, hi: nat)
    requires multiset(a) == multiset(b)
    ensures Count(a, lo, hi) == Count(b, lo, hi)
    decreases |a|
  {
    hide Count;
    assert |a| == |multiset(a)| == |multiset(b)| == |b|;
    if a != [] {
      assert a[0] in multiset(b);
      var j :| 0 <= j < |b| && b[j] == a[0];
      WithoutOne(a, 0);
      WithoutOne(b, j);
      CountAnyOrder(Without(a, 0), Without(b, j), lo, hi);
      CountWithout(a, 0, lo, hi);
      CountWithout(b, j, lo, hi);
    } else {
      assert a == b;
    }
  }

  lemma {:induction false} CountAll(s: seq<RawLog>, lo: nat, hi: nat)
    ensures Count(s, lo, hi) <= |s|
    ensures (forall l <- s :: lo <= l.time < hi) <==> Count(s, lo, hi) == |s|
    ensures (forall l <- s :: !(lo <= l.time < hi)) <==> Count(s, lo, hi) == 0
  {
    if s != [] {
      CountAll(s[1..], lo, hi);
      assert s == [s[0]] + s[1..];
    }
  }

  lemma {:induction false} CountSince(logs: seq<RawLog>, t: nat, lo: nat, hi: nat)
    requires t <= lo
    ensures Count(Since(logs, t), lo, hi) == Count(logs, lo, hi)
    decreases |logs|
  {
    if logs != [] {
      var init, l := logs[..|logs| - 1], logs[|logs| - 1];
      CountSince(init, t, lo, hi);
      assert logs == init + [l];
      CountConcat(init, [l], lo, hi);
      CountConcat(Since(init, t), [l], lo, hi);
    }
  }

  // ---------- One pass ----------

  /** A swap of a later window than t's. */
  predicate Later(win: Grid, t: nat, l: RawLog)
  {
    IsSwapTopic(l.topic0) && win(l.time) > t
  }

  /** Where a finished pass from t that read `rows` leaves the watermark. */
  ghost function NextMark(win: Grid, t: nat, rows: seq<RawLog>): nat
  {
    if Keys(win, rows) == {} then t else Larger(t, MaxOf(Keys(win, rows)))
  }

  lemma NextMarkIsTheWatermark(win: Grid, buckets: map<nat, Bucket>, rows: seq<RawLog>)
    ensures Watermark(Upserted(win, buckets, rows, Keys(win, rows))) == NextMark(win, Watermark(buckets), rows)
  {
    hide Upserted, Keys;
    UpsertedWatermark(win, buckets, rows, Keys(win, rows));
  }

  lemma LaterIsKey(win: Grid, rows: seq<RawLog>, l: RawLog)
    requires l in rows && IsSwapTopic(l.topic0)
    ensures win(l.time) in Keys(win, rows)
  {
    FallsInItsWindow(win, l);
  }

  lemma NextMarkMoves(win: Grid, raw: seq<RawLog>, t: nat, cap: nat, rows: seq<RawLog>, rest: seq<RawLog>)
    requires IsGrid(win) && win(t) == t && Query(raw, t, cap, rows, rest)
    ensures var u := NextMark(win, t, rows);
            && t <= u && win(u) == u
            && (u > t <==> exists l <- rows :: Later(win, t, l))
            && (u > t ==> HasSwap(win, raw, u) && exists l <- rows :: Falls(win, l, u))
  {
    hide Query, Window, Since, IsGrid;
    var u := NextMark(win, t, rows);
    ReadKeys(win, raw, t, cap, rows, rest);
    forall l <- rows | IsSwapTopic(l.topic0)
      ensures win(l.time) in Keys(win, rows)
    {
      LaterIsKey(win, rows, l);
    }
    if u > t {
      var l :| l in rows && Falls(win, l, u);
      assert Later(win, t, l);
    }
  }

  /** The rows before a row that was read were read too, so there are fewer of them than the cap. */
  lemma RowsBefore(raw: seq<RawLog>, t: nat, cap: nat, rows: seq<RawLog>, rest: seq<RawLog>, u: nat, l: RawLog)
    requires Query(raw, t, cap, rows, rest) && l in rows && u >= t
    ensures Count(raw, u, l.time) < cap
  {
    hide Count, Since;
    CountSince(raw, t, u, l.time);
    CountAnyOrder(rows + rest, Since(raw, t), u, l.time);
    CountConcat(rows, rest, u, l.time);
    CountAll(rest, u, l.time);
    CountAll(rows, u, l.time);
  }

  /** Rows that together with everything as early fit under the cap are always read. */
  lemma EarlyIsRead(raw: seq<RawLog>, t: nat, cap: nat, rows: seq<RawLog>, rest: seq<RawLog>, l: RawLog)
    requires Query(raw, t, cap, rows, rest) && l in raw && l.time >= t && Count(raw, t, l.time + 1) <= cap
    ensures l in rows
  {
    hide Count, Since;
    var hi := l.time + 1;
    CountSince(raw, t, t, hi);
    CountAnyOrder(rows + rest, Since(raw, t), t, hi);
    CountConcat(rows, rest, t, hi);
    CountAll(rest, t, hi);
    CountAll(rows, t, hi);
    SinceHas(raw, t, l);
    SameMembers(rows + rest, Since(raw, t));
    if l !in rows {
      assert l in rest;
      forall a <- rows
        ensures t <= a.time < hi
      {
        assert a in rows + rest;
        SinceHas(raw, t, a);
      }
    }
  }

  function Until(logs: seq<RawLog>, hi: nat): seq<RawLog> {
    if logs == [] then [] else
      var rest := Until(logs[..|logs| - 1], hi);
      if logs[|logs| - 1].time < hi then rest + [logs[|logs| - 1]] else rest
  }

  lemma {:induction false} UntilIsEarly(logs: seq<RawLog>, hi: nat)
    ensures forall l <- Until(logs, hi) :: l.time < hi
    ensures forall l <- Since(logs, hi) :: l.time >= hi
  {
    if logs != [] {
      UntilIsEarly(logs[..|logs| - 1], hi);
    }
  }

  lemma {:induction false} UntilCounts(logs: seq<RawLog>, t: nat, hi: nat)
    ensures |Until(Since(logs, t), hi)| == Count(logs, t, hi)
    decreases |logs|
  {
    hide Count;
    if logs == [] {
      CountAll([], t, hi);
    } else {
      var init, l := logs[..|logs| - 1], logs[|logs| - 1];
      UntilCounts(init, t, hi);
      assert logs == init + [l];
      CountConcat(init, [l], t, hi);
      CountAll([l], t, hi);
      if l.time >= t {
        assert Since(logs, t)[..|Since(logs, t)| - 1] == Since(init, t);
      }
    }
  }

  lemma {:induction false} UntilAndSince(logs: seq<RawLog>, t: nat, hi: nat)
    requires t <= hi
    ensures multiset(Until(Since(logs, t), hi)) + multiset(Since(logs, hi)) == multiset(Since(logs, t))
    decreases |logs|
  {
    if logs != [] {
      var init, l := logs[..|logs| - 1], logs[|logs| - 1];
      UntilAndSince(init, t, hi);
      if l.time >= t {
        assert Since(logs, t)[..|Since(logs, t)| - 1] == Since(init, t);
      }
    }
  }

  /** Cutting a sorted list of the rows at the cap gives a possible answer. */
  lemma CutIsAnswer(raw: seq<RawLog>, t: nat, cap: nat, all: seq<RawLog>)
    requires ByTime(all) && multiset(all) == multiset(Since(raw, t))
    ensures var n := if |all| < cap then |all| else cap;
            Query(raw, t, cap, all[..n], all[n..])
  {
    hide Since;
    var n := if |all| < cap then |all| else cap;
    assert all[..n] + all[n..] == all;
  }

  lemma ByTimeJoin(a: seq<RawLog>, l: RawLog, b: seq<RawLog>)
    requires ByTime(a) && ByTime(b) && (forall x <- a :: x.time < l.time) && forall x <- b :: x.time >= l.time
    ensures ByTime(a + [l] + b)
  {
  }

  /** The rows in time order, with l before all the rows of its own time. */
  lemma SortedAround(raw: seq<RawLog>, t: nat, l: RawLog) returns (all: seq<RawLog>)
    requires l in raw && l.time >= t
    ensures ByTime(all) && multiset(all) == multiset(Since(raw, t))
    ensures var k := Count(raw, t, l.time); k < |all| && all[k] == l
  {
    hide Count, Since, SortByTime, Until;
    var early, late := Until(Since(raw, t), l.time), Since(raw, l.time);
    UntilAndSince(raw, t, l.time);
    UntilCounts(raw, t, l.time);
    UntilIsEarly(Since(raw, t), l.time);
    UntilIsEarly(raw, l.time);
    SinceHas(raw, l.time, l);
    var j :| 0 <= j < |late| && late[j] == l;
    WithoutOne(late, j);
    SortByTimeSorts(early);
    SortByTimeSorts(Without(late, j));
    all := JoinAround(SortByTime(early), l, SortByTime(Without(late, j)), early, late, Without(late, j));
  }

  lemma JoinAround(a: seq<RawLog>, l: RawLog, b: seq<RawLog>, early: seq<RawLog>, late: seq<RawLog>,
                   others: seq<RawLog>)
    returns (all: seq<RawLog>)
    requires ByTime(a) && ByTime(b) && multiset(a) == multiset(early) && multiset(b) == multiset(others)
    requires l in multiset(late) && multiset(others) == multiset(late) - multiset{l}
    requires (forall x <- early :: x.time < l.time) && forall x <- late :: x.time >= l.time
    ensures all == a + [l] + b && ByTime(all) && multiset(all) == multiset(early) + multiset(late)
  {
    SameMembers(a, early);
    forall x <- b
      ensures x.time >= l.time
    {
      assert x in multiset(b) && x in multiset(late);
    }
    ByTimeJoin(a, l, b);
    all := a + [l] + b;
  }

  /** The order of the ties can always be such that a given row is read, if fewer rows than the cap are earlier. */
  lemma AnswerWith(raw: seq<RawLog>, t: nat, cap: nat, l: RawLog) returns (rows: seq<RawLog>, rest: seq<RawLog>)
    requires l in raw && l.time >= t && Count(raw, t, l.time) < cap
    ensures Query(raw, t, cap, rows, rest) && l in rows
  {
    hide Count, Since, Query;
    var all := SortedAround(raw, t, l);
    CutIsAnswer(raw, t, cap, all);
    var n := if |all| < cap then |all| else cap;
    rows, rest := all[..n], all[n..];
    assert rows[Count(raw, t, l.time)] == l;
  }

  /** From watermark t a finished pass can move on exactly when fewer rows than the cap, at or after t, are earlier than
      some swap of a later window. */
  lemma PassMayAdvanceIff(win: Grid, raw: seq<RawLog>, t: nat, cap: nat)
    requires IsGrid(win) && win(t) == t
    ensures (exists rows, rest :: Query(raw, t, cap, rows, rest) && NextMark(win, t, rows) > t)
            <==> exists l <- raw :: Later(win, t, l) && Count(raw, t, l.time) < cap
  {
    hide Query, Count, Keys, Since, IsGrid;
    forall rows, rest | Query(raw, t, cap, rows, rest) && NextMark(win, t, rows) > t
      ensures exists l <- raw :: Later(win, t, l) && Count(raw, t, l.time) < cap
    {
      NextMarkMoves(win, raw, t, cap, rows, rest);
      var l :| l in rows && Later(win, t, l);
      RowsBefore(raw, t, cap, rows, rest, t, l);
      RowsAreRaw(raw, t, cap, rows, rest, l);
    }
    if l :| l in raw && Later(win, t, l) && Count(raw, t, l.time) < cap {
      WindowAtLeast(win, l.time, t);
      var rows, rest := AnswerWith(raw, t, cap, l);
      NextMarkMoves(win, raw, t, cap, rows, rest);
    }
  }

  lemma RowsAreRaw(raw: seq<RawLog>, t: nat, cap: nat, rows: seq<RawLog>, rest: seq<RawLog>, l: RawLog)
    requires Query(raw, t, cap, rows, rest) && l in rows
    ensures l in raw && l.time >= t
  {
    SameMembers(rows + rest, Since(raw, t));
    assert l in rows + rest;
    SinceHas(raw, t, l);
  }

  /** And it must, whatever the order of ties, when at most `cap` rows are no later than such a swap. */
  lemma PassMustAdvance(win: Grid, raw: seq<RawLog>, t: nat, cap: nat, rows: seq<RawLog>, rest: seq<RawLog>)
    requires IsGrid(win) && win(t) == t && Query(raw, t, cap, rows, rest)
    requires exists l <- raw :: Later(win, t, l) && Count(raw, t, l.time + 1) <= cap
    ensures NextMark(win, t, rows) > t
  {
    hide Query, Count, Keys, Since, IsGrid;
    var l :| l in raw && Later(win, t, l) && Count(raw, t, l.time + 1) <= cap;
    WindowAtLeast(win, l.time, t);
    EarlyIsRead(raw, t, cap, rows, rest, l);
    NextMarkMoves(win, raw, t, cap, rows, rest);
  }

  // ---------- Catching up ----------

  /** More rows than the cap are left from u on, and at least the cap's worth of them come before every swap of a
      later window. */
  ghost predicate Blocks(win: Grid, raw: seq<RawLog>, cap: nat, u: nat)
  {
    |Since(raw, u)| > cap && forall l <- raw :: Later(win, u, l) ==> Count(raw, u, l.time) >= cap
  }

  /** Where the watermark may come to stand: here, or at a later window with a swap. */
  ghost predicate Mark(win: Grid, raw: seq<RawLog>, t: nat, u: nat)
  {
    u == t || (u > t && HasSwap(win, raw, u))
  }

  /** Some n finished passes from t reach one that the cap does not truncate. */
  ghost predicate CanDrain(win: Grid, raw: seq<RawLog>, cap: nat, t: nat, n: nat)
    decreases n
  {
    |Since(raw, t)| <= cap
    || (n > 0 && exists rows, rest ::
          Query(raw, t, cap, rows, rest) && CanDrain(win, raw, cap, NextMark(win, t, rows), n - 1))
  }

  /** Any n finished passes from t do. */
  ghost predicate MustDrain(win: Grid, raw: seq<RawLog>, cap: nat, t: nat, n: nat)
    decreases n
  {
    |Since(raw, t)| <= cap
    || (n > 0 && forall rows, rest | Query(raw, t, cap, rows, rest) ::
          MustDrain(win, raw, cap, NextMark(win, t, rows), n - 1))
  }

  /** No pass gets past a window that blocks, wherever before it the pass starts. */
  lemma BlockedStays(win: Grid, raw: seq<RawLog>, cap: nat, t: nat, u: nat, rows: seq<RawLog>, rest: seq<RawLog>)
    requires IsGrid(win) && win(t) == t && t <= u && Blocks(win, raw, cap, u) && Query(raw, t, cap, rows, rest)
    ensures NextMark(win, t, rows) <= u
  {
    hide Query, Count, Window, Since, Keys, IsGrid;
    NextMarkMoves(win, raw, t, cap, rows, rest);
    var v := NextMark(win, t, rows);
    if v > t {
      var l :| l in rows && Falls(win, l, v);
      RowsAreRaw(raw, t, cap, rows, rest, l);
      RowsBefore(raw, t, cap, rows, rest, u, l);
      assert !Later(win, u, l);
    }
  }

  lemma {:induction false} SinceShrinks(logs: seq<RawLog>, t: nat, u: nat)
    requires t <= u
    ensures |Since(logs, u)| <= |Since(logs, t)|
  {
    if logs != [] {
      SinceShrinks(logs[..|logs| - 1], t, u);
    }
  }

  lemma {:induction false} BlockedNeverDrains(win: Grid, raw: seq<RawLog>, cap: nat, t: nat, u: nat, n: nat)
    requires IsGrid(win) && win(t) == t && t <= u && Blocks(win, raw, cap, u)
    ensures !CanDrain(win, raw, cap, t, n)
    decreases n
  {
    hide Query, Since, Blocks, IsGrid;
    assert |Since(raw, t)| > cap by {
      SinceShrinks(raw, t, u);
      BlocksMore(win, raw, cap, u);
    }
    if n > 0 {
      forall rows, rest | Query(raw, t, cap, rows, rest)
        ensures !CanDrain(win, raw, cap, NextMark(win, t, rows), n - 1)
      {
        NextMarkMoves(win, raw, t, cap, rows, rest);
        BlockedStays(win, raw, cap, t, u, rows, rest);
        BlockedNeverDrains(win, raw, cap, NextMark(win, t, rows), u, n - 1);
      }
    }
  }

  lemma BlocksMore(win: Grid, raw: seq<RawLog>, cap: nat, u: nat)
    requires Blocks(win, raw, cap, u)
    ensures |Since(raw, u)| > cap
  {
  }

  /** No swap lies in a later window than top. */
  ghost predicate Tops(win: Grid, raw: seq<RawLog>, top: nat)
  {
    forall l <- raw :: IsSwapTopic(l.topic0) ==> win(l.time) <= top
  }

  function TopOf(win: Grid, raw: seq<RawLog>): (top: nat)
    ensures Tops(win, raw, top)
  {
    if raw == [] then 0 else
      var l, top := raw[0], TopOf(win, raw[1..]);
      assert raw == [raw[0]] + raw[1..];
      Larger(win(l.time), top)
  }

  lemma MarkTops(win: Grid, raw: seq<RawLog>, u: nat, top: nat)
    requires Tops(win, raw, top) && HasSwap(win, raw, u)
    ensures u <= top
  {
  }

  /** Where nothing blocks, passes that read the right ties catch up. */
  lemma {:induction false} UnblockedDrains(win: Grid, raw: seq<RawLog>, cap: nat, t: nat, top: nat) returns (n: nat)
    requires IsGrid(win) && win(t) == t && Tops(win, raw, top)
    requires forall u | Mark(win, raw, t, u) :: !Blocks(win, raw, cap, u)
    ensures CanDrain(win, raw, cap, t, n)
    decreases if t <= top then top - t + 1 else 0
  {
    hide Query, Since, Count, Keys, HasSwap, Tops, IsGrid;
    assert Mark(win, raw, t, t);
    if |Since(raw, t)| <= cap {
      n := 0;
    } else {
      PassMayAdvanceIff(win, raw, t, cap);
      var rows, rest :| Query(raw, t, cap, rows, rest) && NextMark(win, t, rows) > t;
      var v := NextMark(win, t, rows);
      NextMarkMoves(win, raw, t, cap, rows, rest);
      MarkTops(win, raw, v, top);
      assert forall u | Mark(win, raw, v, u) :: Mark(win, raw, t, u);
      var m := UnblockedDrains(win, raw, cap, v, top);
      n := m + 1;
    }
  }

  /** Repeated finished passes can catch up, that is reach one that the cap does not truncate, exactly when no window
      where the watermark may come to stand blocks. */
  lemma DrainsIff(win: Grid, raw: seq<RawLog>, cap: nat, t: nat)
    requires IsGrid(win) && win(t) == t
    ensures (exists n :: CanDrain(win, raw, cap, t, n))
            <==> forall u | Mark(win, raw, t, u) :: !Blocks(win, raw, cap, u)
  {
    hide CanDrain, Blocks, Tops, IsGrid;
    if forall u | Mark(win, raw, t, u) :: !Blocks(win, raw, cap, u) {
      var n := UnblockedDrains(win, raw, cap, t, TopOf(win, raw));
    } else {
      var u :| Mark(win, raw, t, u) && Blocks(win, raw, cap, u);
      forall n: nat
        ensures !CanDrain(win, raw, cap, t, n)
      {
        BlockedNeverDrains(win, raw, cap, t, u, n);
      }
    }
  }

  /** Nothing is left behind, or at most `cap` rows are no later than some swap of a later window. */
  ghost predicate Free(win: Grid, raw: seq<RawLog>, cap: nat, u: nat)
  {
    |Since(raw, u)| <= cap || exists l <- raw :: Later(win, u, l) && Count(raw, u, l.time + 1) <= cap
  }

  /** Where every such window is free even counting ties, any passes catch up, within one for each window. */
  lemma {:induction false} AlwaysDrains(win: Grid, raw: seq<RawLog>, cap: nat, t: nat, n: nat)
    requires IsGrid(win) && win(t) == t && n >= TopOf(win, raw) - t
    requires forall u | Mark(win, raw, t, u) :: Free(win, raw, cap, u)
    ensures MustDrain(win, raw, cap, t, n)
    decreases n
  {
    hide Query, Since, Count, Keys, HasSwap, Tops, IsGrid;
    assert Mark(win, raw, t, t);
    if |Since(raw, t)| > cap {
      forall rows, rest | Query(raw, t, cap, rows, rest)
        ensures n > 0 && MustDrain(win, raw, cap, NextMark(win, t, rows), n - 1)
      {
        var v := NextMark(win, t, rows);
        PassMustAdvance(win, raw, t, cap, rows, rest);
        NextMarkMoves(win, raw, t, cap, rows, rest);
        MarkTops(win, raw, v, TopOf(win, raw));
        assert forall u | Mark(win, raw, v, u) :: Mark(win, raw, t, u);
        AlwaysDrains(win, raw, cap, v, n - 1);
      }
      AnswerExists(raw, t, cap);
    }
  }

  lemma AnswerExists(raw: seq<RawLog>, t: nat, cap: nat)
    ensures exists rows, rest :: Query(raw, t, cap, rows, rest)
  {
    hide Query, Since;
    SortByTimeSorts(Since(raw, t));
    CutIsAnswer(raw, t, cap, SortByTime(Since(raw, t)));
  }

  // ---------- A window as large as the cap ----------

  /** As many swaps as the cap in the first window, and one in a later one. */
  function Crowded(later: nat, cap: nat, topic: string): seq<RawLog> {
    seq(cap, (i: nat) => RawLog("0x01", i, 0, topic, "")) + [RawLog("0x02", 0, later, topic, "")]
  }

  lemma {:induction false} SinceZero(logs: seq<RawLog>)
    ensures Since(logs, 0) == logs
  {
    if logs != [] {
      SinceZero(logs[..|logs| - 1]);
    }
  }

  /** For every cap there is a table that passes never get through, however often they run. */
  lemma FullWindowBlocks(win: Grid, later: nat, cap: nat, topic: string)
    requires IsGrid(win) && win(later) == later > 0 && IsSwapTopic(topic)
    ensures Blocks(win, Crowded(later, cap, topic), cap, 0)
    ensures forall n: nat :: !CanDrain(win, Crowded(later, cap, topic), cap, 0, n)
  {
    hide CanDrain, Since, IsSwapTopic, Count, IsGrid;
    var raw := Crowded(later, cap, topic);
    var first, last := raw[..cap], raw[cap];
    SinceZero(raw);
    WindowStarts(win, 0);
    assert raw == first + [last];
    CountConcat(first, [last], 0, later);
    CountAll(first, 0, later);
    forall l <- raw | Later(win, 0, l)
      ensures Count(raw, 0, l.time) >= cap
    {
      assert l == last;
    }
    forall n: nat
      ensures !CanDrain(win, raw, cap, 0, n)
    {
      BlockedNeverDrains(win, raw, cap, 0, 0, n);
    }
  }
}
