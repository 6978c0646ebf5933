/** Which signals a replay holds, said of the table: the 20 newest for a first connection, up to 500 after
    the client's last id on a reconnect (internal/api/sse.go), and what a browser therefore holds. */
module LiveReplay {
  import opened IdChains
  import opened LiveFeed

  /** `rows` are the n oldest rows of the table with an id above `after`, in order. */
  ghost predicate OldestAfter(db: seq<nat>, after: nat, n: nat, rows: seq<nat>) {
    && Sorted(rows) && |rows| <= n
    && (forall id <- rows :: id in db && id > after)
    && (forall id <- db | id > after :: id !in rows ==> |rows| == n && forall r <- rows :: r < id)
  }

  lemma StretchIsSorted(db: seq<nat>, k: nat, m: nat)
    requires Sorted(db) && k <= m <= |db|
    ensures Sorted(db[k..m])
  {
  }

  lemma StretchHolds(db: seq<nat>, k: nat, m: nat)
    requires k <= m <= |db|
    ensures forall i | k <= i < m :: db[i] in db[k..m]
  {
    forall i | k <= i < m
      ensures db[i] in db[k..m]
    {
      assert db[k..m][i - k] == db[i];
    }
  }

  lemma QueryRowIsLater(db: seq<nat>, after: nat, n: nat, i: nat)
    requires Sorted(db) && i < |SignalsAfterID(db, after, n)|
    ensures SignalsAfterID(db, after, n)[i] in db && SignalsAfterID(db, after, n)[i] > after
  {
    hide Rank;
    assert SignalsAfterID(db, after, n)[i] == db[Rank(db, after) + i];
    RankBetween(db, after, Rank(db, after) + i);
  }

  /** What the query leaves out comes after all it returns, and only when it is full. */
  lemma RowLeftOut(db: seq<nat>, after: nat, n: nat, i: nat)
    requires Sorted(db) && i < |db| && db[i] > after && db[i] !in SignalsAfterID(db, after, n)
    ensures |SignalsAfterID(db, after, n)| == n && forall r <- SignalsAfterID(db, after, n) :: r < db[i]
  {
    hide Rank;
    var k, rows := Rank(db, after), SignalsAfterID(db, after, n);
    RankBetween(db, after, i);
    StretchHolds(db, k, k + |rows|);
    forall r <- rows
      ensures r < db[i]
    {
      var j :| 0 <= j < |rows| && rows[j] == r;
      assert db[k + j] == r && db[k + j] < db[i];
    }
  }

  lemma QueryIsOldestAfter(db: seq<nat>, after: nat, n: nat)
    requires Sorted(db)
    ensures OldestAfter(db, after, n, SignalsAfterID(db, after, n))
  {
    var rows := SignalsAfterID(db, after, n);
    StretchIsSorted(db, Rank(db, after), Rank(db, after) + |rows|);
    hide Rank, Sorted, SignalsAfterID;
    forall id <- rows
      ensures id in db && id > after
    {
      var i: nat :| i < |rows| && rows[i] == id;
      QueryRowIsLater(db, after, n, i);
    }
    forall id <- db | id > after && id !in rows
      ensures |rows| == n && forall r <- rows :: r < id
    {
      var i: nat :| i < |db| && db[i] == id;
      RowLeftOut(db, after, n, i);
    }
  }

  /** A poll of the tail takes the 200 oldest rows past its cursor. */
  lemma PollTakesOldest(names: set<nat>, acts: seq<Action>)
    ensures var s := Run(Init(names), acts);
            Enabled(s, Poll(true)) ==> OldestAfter(s.db, s.tail.cursor, 200, Step(s, Poll(true)).tail.batch)
  {
    hide Run;
    InitGood(names);
    RunKeepsGood(Init(names), acts);
    var s := Run(Init(names), acts);
    QueryIsOldestAfter(s.db, s.tail.cursor, 200);
  }

  /** A reconnect replays the 500 oldest rows after the last id the client holds. */
  lemma ReconnectReplays(s: State, t: State, x: Browser, ok: bool)
    requires Sorted(t.db) && x.got != []
    ensures var y := ReadBrowser(t, AimBrowser(s, x, ok), true);
            && y.w == Writer([], x.got[|x.got| - 1]) && y.phase.Replaying?
            && OldestAfter(t.db, x.got[|x.got| - 1], 500, y.phase.rows)
  {
    QueryIsOldestAfter(t.db, x.got[|x.got| - 1], 500);
  }

  /** One turn of the streaming loop: an id already behind the writer is passed over, a newer one is written, and the
      session ends exactly on a failed write or on a channel that is closed and drained. */
  lemma DeliverMeans(s: State, b: nat)
    requires Enabled(s, Deliver(b))
    ensures var x, ch, t := s.browsers[b], s.hub.chans[Conn(s, b)], Step(s, Deliver(b));
            var y, queued := t.browsers[b], ch.taken < |ch.history|;
            var newer := queued && ch.history[ch.taken] > x.w.last;
            && y.w == (if newer && x.wire then Writer(x.w.out + [ch.history[ch.taken]], ch.history[ch.taken]) else x.w)
            && (y.phase == Done <==> (newer && !x.wire) || (!queued && !ch.open))
            && t.hub.chans[Conn(s, b)].taken == ch.taken + (if queued then 1 else 0)
            && y.got == x.got && y.session == x.session && t.db == s.db && t.tail == s.tail
            && forall c <- s.browsers | c != b :: t.browsers[c] == s.browsers[c]
  {
    hide Deliverable, Remains;
  }

  ghost predicate Positive(db: seq<nat>) {
    forall id <- db :: id > 0
  }

  /** A row is at most 20 ids below every row of `seen`. */
  ghost predicate Recent(seen: seq<nat>, id: nat) {
    forall top <- seen :: id + 20 > top
  }

  lemma RecentIs(seen: seq<nat>, id: nat)
    requires Sorted(seen) && Positive(seen) && id > 0
    ensures Recent(seen, id) <==> id > if MaxSignalID(seen) > 20 then MaxSignalID(seen) - 20 else 0
  {
    if seen != [] {
      assert seen[|seen| - 1] in seen;
    }
    forall top <- seen
      ensures top <= MaxSignalID(seen)
    {
      MaxIsMax(seen, top);
    }
  }

  /** A first connection whose MAX(id) read saw the table of s and whose replay read saw that of t: a row that was there
      at the first read is in the replay exactly when its id + 20 exceeds every id there was; rows committed in between
      follow while there is room for them. */
  lemma FirstReplayIff(s: State, t: State, x: Browser)
    requires Sorted(t.db) && Positive(t.db) && s.db <= t.db && x.got == []
    ensures var y := ReadBrowser(t, AimBrowser(s, x, true), true);
            && y.phase.Replaying? && y.w.out == []
            && (forall id <- s.db :: id in y.phase.rows <==> Recent(s.db, id))
            && (forall id <- y.phase.rows :: id in t.db && Recent(s.db, id))
            && (forall id <- t.db | Recent(s.db, id) && id !in y.phase.rows :: |y.phase.rows| == 20)
            && Sorted(y.phase.rows)
  {
    var a, rows := AimBrowser(s, x, true).w.last, ReadBrowser(t, AimBrowser(s, x, true), true).phase.rows;
    assert forall id <- s.db :: id in t.db;
    QueryIsOldestAfter(t.db, a, 20);
    forall id <- t.db
      ensures Recent(s.db, id) <==> id > a
    {
      RecentIs(s.db, id);
    }
    forall id <- s.db | id > a
      ensures id in rows
    {
      OldRowsFit(s.db, t.db, a);
      RowInReplay(t.db, a, MaxSignalID(s.db), 20, id);
    }
  }

  /** Rows committed after the first read are beyond the 20 that reach back from its MAX(id). */
  lemma OldRowsFit(db: seq<nat>, more: seq<nat>, a: nat)
    requires Sorted(more) && db <= more && db != [] && a < MaxSignalID(db) <= a + 20
    ensures Rank(more, MaxSignalID(db)) <= Rank(more, a) + 20 && forall id <- db :: id <= MaxSignalID(db)
  {
    RankAt(more, |db| - 1);
    RankIs(db, a, if Rank(more, a) < |db| then Rank(more, a) else |db|);
    RecentWindow(db, a);
  }

  // ---------- Over runs ----------

  /** The newest id the browser's last first connection found; 0 when the table was empty or the read failed. */
  ghost function TopRead(s: State, acts: seq<Action>, b: nat, top: nat): nat
    decreases |acts|
  {
    if acts == [] then top else
      var a := acts[0];
      if !Enabled(s, a) then TopRead(s, acts[1..], b, top)
      else TopRead(Step(s, a), acts[1..], b, TopAfter(s, a, b, top))
  }

  ghost function TopAfter(s: State, a: Action, b: nat, top: nat): nat
    requires Enabled(s, a)
  {
    if a.Aim? && a.b == b && s.browsers[b].got == [] then if a.ok && s.db != [] then s.db[|s.db| - 1] else 0 else top
  }

  ghost predicate StartsBelow(s: State, b: nat, top: nat) {
    && Positive(s.db)
    && b in s.browsers && s.browsers[b].origin == if top > 20 then top - 20 else 0
  }

  lemma StepStartsBelow(s: State, a: Action, b: nat, top: nat)
    requires StartsBelow(s, b, top) && Enabled(s, a)
    ensures StartsBelow(Step(s, a), b, TopAfter(s, a, b, top))
  {
    hide Deliverable, SignalsAfterID, Rank, Remains;
  }

  lemma {:induction false} RunStartsBelow(s: State, acts: seq<Action>, b: nat, top: nat)
    requires StartsBelow(s, b, top)
    ensures StartsBelow(Run(s, acts), b, TopRead(s, acts, b, top))
    decreases |acts|
  {
    hide Step, Enabled, StartsBelow, TopAfter;
    if acts != [] {
      if Enabled(s, acts[0]) {
        StepStartsBelow(s, acts[0], b, top);
        RunStartsBelow(Step(s, acts[0]), acts[1..], b, TopAfter(s, acts[0], b, top));
      } else {
        RunStartsBelow(s, acts[1..], b, top);
      }
    }
  }

  /** A stretch of the table named by its ends is named by where its chain began and by what is in it. */
  lemma StretchByContents(db: seq<nat>, duds: set<nat>, x: Browser, top: nat, id: nat)
    requires Positive(db) && x.origin == if top > 20 then top - 20 else 0
    requires Sorted(x.got + x.w.out)
    requires id in x.got + x.w.out <==> id in db && id !in duds && x.origin < id <= x.Newest()
    ensures var held := x.got + x.w.out;
            id in held <==> id in db && id !in duds && id + 20 > top && exists h <- held :: id <= h
  {
    var held := x.got + x.w.out;
    if held != [] {
      assert held[|held| - 1] in held;
    }
  }

  /** In every interleaving in which a browser's replay reads are good, what it holds over all its sessions is exactly
      the deliverable signals from 20 below the MAX(id) its first connection read up to the newest it holds. */
  lemma FeedStartsTwentyBack(names: set<nat>, acts: seq<Action>, b: nat)
    requires b in names && Careful(Init(names), acts, b)
    ensures b in Run(Init(names), acts).browsers
    ensures var s := Run(Init(names), acts);
            var held, top := s.browsers[b].got + s.browsers[b].w.out, TopRead(Init(names), acts, b, 0);
            forall id: nat ::
              id in held <==> id in s.db && id !in s.duds && id + 20 > top && exists h <- held :: id <= h
  {
    hide Run, Careful, TopRead, Positive, Sorted;
    CarefulFeedHasNoGaps(names, acts, b);
    assert StartsBelow(Init(names), b, 0) by {
      NothingIsPositive();
    }
    RunStartsBelow(Init(names), acts, b, 0);
    FeedIncreases(names, acts, b);
    hide Init;
    var s := Run(Init(names), acts);
    var x, top := s.browsers[b], TopRead(Init(names), acts, b, 0);
    var held := x.got + x.w.out;
    forall id: nat
      ensures id in held <==> id in s.db && id !in s.duds && id + 20 > top && exists h <- held :: id <= h
    {
      StretchByContents(s.db, s.duds, x, top, id);
    }
  }

  lemma NothingIsPositive()
    ensures Positive([])
  {
  }
}
