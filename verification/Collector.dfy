/** The collector's crash-safe scan (internal/chain/collector.go) over the store's cursor and its
    insert-once log table (internal/store/queries.go). */
module Collector {
  import opened Common

  const LOG_CHUNK_BLOCKS: nat := 2000
  const COLD_START_LOOKBACK: nat := 100

  /** The business key of a log. */
  datatype Key = Key(txHash: string, logIndex: nat)

  /** The tracked logs of each block, once it is deep enough to be final. */
  type Chain = nat -> seq<Key>

  // ---------- The chunks of a scan ----------

  function ChunkEnd(start: nat, last: nat): nat {
    if start + LOG_CHUNK_BLOCKS - 1 > last then last else start + LOG_CHUNK_BLOCKS - 1
  }

  function Chunks(from: nat, last: nat): seq<(nat, nat)>
    decreases if from <= last then last - from + 1 else 0
  {
    if from > last then [] else [(from, ChunkEnd(from, last))] + Chunks(ChunkEnd(from, last) + 1, last)
  }

  /** The chunks of a scan tile its range: in order, none empty or over 2000 blocks, all but the last
      of 2000, each starting one past the one before, the first at `from` and the last at `last`. */
  lemma {:induction false} ChunksTile(from: nat, last: nat)
    requires from <= last
    ensures var c := Chunks(from, last);
            && c != [] && c[0].0 == from && c[|c| - 1].1 == last
            && (forall i | 0 <= i < |c| :: c[i].0 <= c[i].1 < c[i].0 + 2000)
            && (forall i | 0 <= i < |c| - 1 :: c[i].1 == c[i].0 + 1999)
            && (forall i | 0 < i < |c| :: c[i].0 == c[i - 1].1 + 1)
    decreases last - from
  {
    var end := ChunkEnd(from, last);
    if end < last {
      ChunksTile(end + 1, last);
      var c, rest := Chunks(from, last), Chunks(end + 1, last);
      assert forall i | 0 < i < |c| :: c[i] == rest[i - 1];
    } else {
      assert Chunks(last + 1, last) == [];
    }
  }

  /** The tracked logs of a range of blocks, in block order. */
  function LogsIn(chain: Chain, from: nat, last: nat): seq<Key>
    decreases if from <= last then last - from + 1 else 0
  {
    if from > last then [] else chain(from) + LogsIn(chain, from + 1, last)
  }

  lemma {:induction false} LogsInHas(chain: Chain, from: nat, last: nat, block: nat)
    requires from <= block <= last
    ensures forall k <- chain(block) :: k in LogsIn(chain, from, last)
    decreases last - from
  {
    if from < block {
      LogsInHas(chain, from + 1, last, block);
    }
  }

  lemma {:induction false} LogsInOnly(chain: Chain, from: nat, last: nat)
    ensures forall k <- LogsIn(chain, from, last) :: exists b: nat :: from <= b <= last && k in chain(b)
    decreases if from <= last then last - from + 1 else 0
  {
    if from <= last {
      LogsInOnly(chain, from + 1, last);
    }
  }

  // ---------- The table: insert, ignoring keys already there ----------

  ghost predicate Distinct(s: seq<Key>) {
    forall i, j | 0 <= i < j < |s| :: s[i] != s[j]
  }

  /** The inserts performed, in order: a row whose key is there is not inserted again. */
  function InsertRows(done: seq<Key>, rows: seq<Key>): seq<Key>
    decreases |rows|
  {
    if rows == [] then done
    else InsertRows(if rows[0] in done then done else done + [rows[0]], rows[1..])
  }

  lemma {:induction false} InsertOnce(done: seq<Key>, rows: seq<Key>)
    requires Distinct(done)
    ensures var r := InsertRows(done, rows);
            && Distinct(r) && done <= r
            && forall k :: k in r <==> k in done || k in rows
    decreases |rows|
  {
    if rows != [] {
      InsertOnce(if rows[0] in done then done else done + [rows[0]], rows[1..]);
      assert forall k :: k in rows <==> k == rows[0] || k in rows[1..];
    }
  }

  // ---------- Scans, step by step ----------

  /** A process at chunk `next` of a scan up to `last`; `stored` once the chunk's rows are inserted. */
  datatype Scan = Scan(next: nat, last: nat, stored: bool)

  /** `inserted` is the log of inserts; `scans` the scans in flight, by process; `start` the first block of the scan
      that first set the cursor, or of the last backfill; `top` the highest block any of them took to be confirmed. */
  datatype State = State(cursor: Option<nat>, inserted: seq<Key>, scans: map<nat, Scan>, start: nat, top: nat)

  const BLANK := State(None, [], map[], 0, 0)

  /** A process seeds the cursor for a backfill, or begins a scan, at a head; inserts a prefix of the chunk's rows (all
      of them, or fewer and the scan is abandoned); sets the cursor; crashes, or ends its scan on any failure. */
  datatype Action =
    | Backfill(p: nat, latest: nat, lookback: nat)
    | Begin(p: nat, latest: nat)
    | Insert(p: nat, rows: nat)
    | SetCursor(p: nat)
    | Crash(p: nat)

  function BackfillFrom(latest: nat, lookback: nat): nat {
    if latest > lookback then latest - lookback else 0
  }

  function BackfillSeed(latest: nat, lookback: nat): nat {
    if BackfillFrom(latest, lookback) > 0 then BackfillFrom(latest, lookback) - 1 else 0
  }

  function FirstBlock(cursor: Option<nat>, last: nat): nat {
    match cursor
    case Some(c) => c + 1
    case None => if last > COLD_START_LOOKBACK then last - COLD_START_LOOKBACK else 0
  }

  function Larger(a: nat, b: nat): nat {
    if a < b then b else a
  }

  function Step(chain: Chain, confirmations: nat, s: State, a: Action): State {
    match a
    case Backfill(p, latest, lookback) =>
      var seed := BackfillSeed(latest, lookback);
      State(Some(seed), s.inserted, s.scans - {p}, seed + 1, Larger(s.top, seed))
    case Begin(p, latest) =>
      if latest < confirmations || FirstBlock(s.cursor, latest - confirmations) > latest - confirmations then
        s.(scans := s.scans - {p})
      else
        var last := latest - confirmations;
        s.(scans := s.scans[p := Scan(FirstBlock(s.cursor, last), last, false)], top := Larger(s.top, last))
    case Insert(p, k) =>
      if p !in s.scans || s.scans[p].stored then s else
        var rows := LogsIn(chain, s.scans[p].next, ChunkEnd(s.scans[p].next, s.scans[p].last));
        if k < |rows| then s.(inserted := InsertRows(s.inserted, rows[..k]), scans := s.scans - {p})
        else s.(inserted := InsertRows(s.inserted, rows), scans := s.scans[p := s.scans[p].(stored := true)])
    case SetCursor(p) =>
      if p !in s.scans || !s.scans[p].stored then s else
        var Scan(next, last, _) := s.scans[p];
        var end := ChunkEnd(next, last);
        s.(cursor := Some(end), start := if s.cursor.None? then next else s.start,
           scans := if end == last then s.scans - {p} else s.scans[p := Scan(end + 1, last, false)])
    case Crash(p) => s.(scans := s.scans - {p})
  }

  function Run(chain: Chain, confirmations: nat, s: State, acts: seq<Action>): State
    decreases |acts|
  {
    if acts == [] then s else Run(chain, confirmations, Step(chain, confirmations, s, acts[0]), acts[1..])
  }

  /** Every tracked log of the blocks from a up to, but not including, b has been inserted. */
  ghost predicate Covered(chain: Chain, inserted: seq<Key>, a: nat, b: nat) {
    forall block: nat, k | a <= block < b && k in chain(block) :: k in inserted
  }

  /** What holds however the processes get in each other's way. */
  ghost predicate Sound(chain: Chain, s: State) {
    && Distinct(s.inserted)
    && (forall k <- s.inserted :: exists b: nat :: b <= s.top && k in chain(b))
    && (s.cursor.Some? ==> s.cursor.value <= s.top)
    && forall p <- s.scans ::
         && s.scans[p].next <= s.scans[p].last <= s.top
         && (s.scans[p].stored ==>
               Covered(chain, s.inserted, s.scans[p].next, ChunkEnd(s.scans[p].next, s.scans[p].last) + 1))
  }

  /** From the start block on, everything up to the cursor and before each scan in flight is in the table. */
  ghost predicate Complete(chain: Chain, s: State) {
    s.cursor.Some? ==>
      && Covered(chain, s.inserted, s.start, s.cursor.value + 1)
      && forall p <- s.scans :: Covered(chain, s.inserted, s.start, s.scans[p].next)
  }

  /** What the scans of the other processes must have behind them when `start` becomes the start block. */
  ghost predicate OthersCover(chain: Chain, s: State, p: nat, start: nat) {
    forall q <- s.scans | q != p :: Covered(chain, s.inserted, start, s.scans[q].next)
  }

  /** The steps that define the start block, a backfill's seed and the first cursor, do so when they may. No scan of
      another process in flight is enough. */
  ghost predicate Clean(chain: Chain, s: State, a: Action) {
    match a
    case Backfill(p, latest, lookback) => OthersCover(chain, s, p, BackfillSeed(latest, lookback) + 1)
    case SetCursor(p) => s.cursor.None? && p in s.scans ==> OthersCover(chain, s, p, s.scans[p].next)
    case _ => true
  }

  ghost predicate CleanRun(chain: Chain, confirmations: nat, s: State, acts: seq<Action>)
    decreases |acts|
  {
    acts != [] ==>
      Clean(chain, s, acts[0]) && CleanRun(chain, confirmations, Step(chain, confirmations, s, acts[0]), acts[1..])
  }

  lemma CoveredGrows(chain: Chain, inserted: seq<Key>, rows: seq<Key>, a: nat, b: nat)
    requires Distinct(inserted) && Covered(chain, inserted, a, b)
    ensures Covered(chain, InsertRows(inserted, rows), a, b)
  {
    InsertOnce(inserted, rows);
  }

  /** A chunk whose rows are inserted is covered. */
  lemma ChunkCovered(chain: Chain, inserted: seq<Key>, next: nat, end: nat)
    requires Distinct(inserted)
    ensures Covered(chain, InsertRows(inserted, LogsIn(chain, next, end)), next, end + 1)
  {
    InsertOnce(inserted, LogsIn(chain, next, end));
    forall block: nat | next <= block <= end
      ensures forall k <- chain(block) :: k in LogsIn(chain, next, end)
    {
      LogsInHas(chain, next, end, block);
    }
  }

  lemma CoveredJoins(chain: Chain, inserted: seq<Key>, a: nat, b: nat, c: nat)
    requires Covered(chain, inserted, a, b) && Covered(chain, inserted, b, c)
    ensures Covered(chain, inserted, a, c)
  {
  }

  /** Rows of a chunk come from blocks up to the top. */
  lemma RowsAreKnown(chain: Chain, inserted: seq<Key>, part: seq<Key>, next: nat, end: nat, top: nat)
    requires Distinct(inserted) && end <= top && (forall k <- part :: k in LogsIn(chain, next, end))
    requires forall k <- inserted :: exists b: nat :: b <= top && k in chain(b)
    ensures Distinct(InsertRows(inserted, part))
    ensures forall k <- InsertRows(inserted, part) :: exists b: nat :: b <= top && k in chain(b)
  {
    hide LogsIn, InsertRows;
    InsertOnce(inserted, part);
    LogsInOnly(chain, next, end);
  }

  lemma InsertIsSound(chain: Chain, s: State, p: nat, k: nat)
    requires Sound(chain, s) && p in s.scans && !s.scans[p].stored
    ensures Sound(chain, Step(chain, 0, s, Insert(p, k)))
  {
    hide ChunkEnd, LogsIn, InsertRows, Covered, Distinct;
    var end := ChunkEnd(s.scans[p].next, s.scans[p].last);
    var rows := LogsIn(chain, s.scans[p].next, end);
    var part := if k < |rows| then rows[..k] else rows;
    EndIsInScan(s.scans[p]);
    RowsAreKnown(chain, s.inserted, part, s.scans[p].next, end, s.top);
    ChunkCovered(chain, s.inserted, s.scans[p].next, end);
    forall q <- s.scans
      ensures s.scans[q].stored ==>
                Covered(chain, InsertRows(s.inserted, part), s.scans[q].next,
                        ChunkEnd(s.scans[q].next, s.scans[q].last) + 1)
    {
      if s.scans[q].stored {
        CoveredGrows(chain, s.inserted, part, s.scans[q].next, ChunkEnd(s.scans[q].next, s.scans[q].last) + 1);
      }
    }
  }

  lemma EndIsInScan(x: Scan)
    requires x.next <= x.last
    ensures x.next <= ChunkEnd(x.next, x.last) <= x.last
  {
  }

  lemma StepIsSound(chain: Chain, confirmations: nat, s: State, a: Action)
    requires Sound(chain, s)
    ensures Sound(chain, Step(chain, confirmations, s, a)) && s.top <= Step(chain, confirmations, s, a).top
  {
    hide LogsIn, InsertRows, Covered, Distinct, ChunkEnd;
    match a
    case Insert(p, k) =>
      if p in s.scans && !s.scans[p].stored {
        InsertIsSound(chain, s, p, k);
      }
    case SetCursor(p) =>
      if p in s.scans {
        EndIsInScan(s.scans[p]);
      }
    case _ =>
  }

  lemma StepIsComplete(chain: Chain, confirmations: nat, s: State, a: Action)
    requires Sound(chain, s) && Complete(chain, s) && Clean(chain, s, a)
    ensures Complete(chain, Step(chain, confirmations, s, a))
  {
    var r := Step(chain, confirmations, s, a);
    match a
    case Insert(p, k) =>
      hide LogsIn, InsertRows, Covered, ChunkEnd;
      if p in s.scans && !s.scans[p].stored && s.cursor.Some? {
        var rows := LogsIn(chain, s.scans[p].next, ChunkEnd(s.scans[p].next, s.scans[p].last));
        var part := if k < |rows| then rows[..k] else rows;
        CoveredGrows(chain, s.inserted, part, s.start, s.cursor.value + 1);
        forall q <- s.scans
          ensures Covered(chain, InsertRows(s.inserted, part), s.start, s.scans[q].next)
        {
          CoveredGrows(chain, s.inserted, part, s.start, s.scans[q].next);
        }
      }
    case SetCursor(p) =>
      hide LogsIn, InsertRows, Covered, ChunkEnd;
      if p in s.scans && s.scans[p].stored {
        var Scan(next, last, _) := s.scans[p];
        NothingToCover(chain, s.inserted, next);
        CoveredJoins(chain, s.inserted, r.start, next, ChunkEnd(next, last) + 1);
      }
    case Begin(p, latest) =>
      hide LogsIn, Covered;
    case _ =>
  }

  lemma NothingToCover(chain: Chain, inserted: seq<Key>, a: nat)
    ensures Covered(chain, inserted, a, a)
  {
  }

  lemma {:induction false} RunIsSound(chain: Chain, confirmations: nat, s: State, acts: seq<Action>)
    requires Sound(chain, s)
    ensures Sound(chain, Run(chain, confirmations, s, acts))
    decreases |acts|
  {
    hide Sound, Step;
    if acts != [] {
      StepIsSound(chain, confirmations, s, acts[0]);
      RunIsSound(chain, confirmations, Step(chain, confirmations, s, acts[0]), acts[1..]);
    }
  }

  lemma {:induction false} RunIsComplete(chain: Chain, confirmations: nat, s: State, acts: seq<Action>)
    requires Sound(chain, s) && Complete(chain, s) && CleanRun(chain, confirmations, s, acts)
    ensures Complete(chain, Run(chain, confirmations, s, acts))
    decreases |acts|
  {
    hide Sound, Complete, Clean, Step;
    if acts != [] {
      StepIsSound(chain, confirmations, s, acts[0]);
      StepIsComplete(chain, confirmations, s, acts[0]);
      RunIsComplete(chain, confirmations, Step(chain, confirmations, s, acts[0]), acts[1..]);
    }
  }

  /** The highest block an action takes to be confirmed. */
  function Reach(confirmations: nat, a: Action): nat {
    match a
    case Backfill(_, latest, lookback) => BackfillSeed(latest, lookback)
    case Begin(_, latest) => if latest >= confirmations then latest - confirmations else 0
    case _ => 0
  }

  /** `top` is never above what the run was shown. */
  lemma {:induction false} TopIsSeen(chain: Chain, confirmations: nat, s: State, acts: seq<Action>, limit: nat)
    requires s.top <= limit && forall a <- acts :: Reach(confirmations, a) <= limit
    ensures Run(chain, confirmations, s, acts).top <= limit
    decreases |acts|
  {
    if acts != [] {
      assert acts[0] in acts && Reach(confirmations, acts[0]) <= limit;
      TopIsSeen(chain, confirmations, Step(chain, confirmations, s, acts[0]), acts[1..], limit);
    }
  }

  /** Over every run of any number of processes, with a crash or failure between any two steps: no log is inserted
      twice; the cursor never passes the highest head seen less the confirmations, or a backfill's seed; and if each
      start block was set when the scans in flight had everything from it on behind them, every log of the blocks from
      the start block to the stored cursor is in the table. */
  lemma CollectorIsCrashSafe(chain: Chain, confirmations: nat, acts: seq<Action>, limit: nat)
    requires forall a <- acts | a.Begin? :: a.latest - confirmations <= limit
    requires forall a <- acts | a.Backfill? :: a.latest - a.lookback - 1 <= limit
    ensures var r := Run(chain, confirmations, BLANK, acts);
            && Distinct(r.inserted)
            && (r.cursor.Some? ==> r.cursor.value <= limit)
            && (r.cursor.Some? && CleanRun(chain, confirmations, BLANK, acts) ==>
                  forall block: nat, k | r.start <= block <= r.cursor.value && k in chain(block) :: k in r.inserted)
  {
    RunIsSound(chain, confirmations, BLANK, acts);
    forall a <- acts
      ensures Reach(confirmations, a) <= limit
    {
      assert a.Begin? ==> a.latest - confirmations <= limit;
      assert a.Backfill? ==> a.latest - a.lookback - 1 <= limit;
    }
    TopIsSeen(chain, confirmations, BLANK, acts, limit);
    if CleanRun(chain, confirmations, BLANK, acts) {
      RunIsComplete(chain, confirmations, BLANK, acts);
    }
  }

  /** A scan begins one past the cursor, or 100 blocks behind the confirmed head without one, and goes up to the
      confirmed head; there is none when that leaves nothing to scan. */
  lemma BeginMeans(chain: Chain, confirmations: nat, s: State, p: nat, latest: nat)
    ensures var r, last := Step(chain, confirmations, s, Begin(p, latest)), latest - confirmations;
            var first := if s.cursor.Some? then s.cursor.value + 1 else if last > 100 then last - 100 else 0;
            && r.cursor == s.cursor && r.inserted == s.inserted && r.start == s.start
            && (p in r.scans <==> 0 <= last && first <= last)
            && (p in r.scans ==> r.scans[p] == Scan(first, last, false))
            && forall q | q != p :: (q in r.scans <==> q in s.scans) && (q in r.scans ==> r.scans[q] == s.scans[q])
  {
  }

  predicate NoBackfill(acts: seq<Action>) {
    forall a <- acts :: !a.Backfill?
  }

  // ---------- One process ----------

  /** Only process p acts, and it seeds nothing. */
  predicate Solo(acts: seq<Action>, p: nat) {
    forall a <- acts :: a.p == p && !a.Backfill?
  }

  /** A single process's scan is ahead of the cursor. */
  predicate Ahead(s: State, p: nat) {
    s.scans.Keys <= {p} && (s.cursor.Some? && p in s.scans ==> s.scans[p].next > s.cursor.value)
  }

  lemma SoloStep(chain: Chain, confirmations: nat, s: State, a: Action, p: nat)
    requires Sound(chain, s) && Ahead(s, p) && a.p == p && !a.Backfill?
    ensures var r := Step(chain, confirmations, s, a);
            && Ahead(r, p) && Clean(chain, s, a)
            && (s.cursor.Some? ==> r.cursor.Some? && s.cursor.value <= r.cursor.value && r.start == s.start)
  {
    hide LogsIn, InsertRows, Covered, Distinct, ChunkEnd;
    if p in s.scans {
      EndIsInScan(s.scans[p]);
    }
  }

  lemma {:induction false} SoloNeverBack(chain: Chain, confirmations: nat, s: State, acts: seq<Action>, p: nat)
    requires Sound(chain, s) && Ahead(s, p) && Solo(acts, p)
    ensures var r := Run(chain, confirmations, s, acts);
            && Ahead(r, p) && CleanRun(chain, confirmations, s, acts)
            && (s.cursor.Some? ==> r.cursor.Some? && s.cursor.value <= r.cursor.value && r.start == s.start)
    decreases |acts|
  {
    hide Sound, Ahead, Clean, Step;
    if acts != [] {
      assert acts[0] in acts;
      StepIsSound(chain, confirmations, s, acts[0]);
      SoloStep(chain, confirmations, s, acts[0], p);
      SoloNeverBack(chain, confirmations, Step(chain, confirmations, s, acts[0]), acts[1..], p);
    }
  }

  /** The supervisor alone: whatever it goes through, its cursor never goes back, and every log of the blocks from its
      first one to the cursor is in the table. */
  lemma SoloIsCrashSafe(chain: Chain, confirmations: nat, before: seq<Action>, acts: seq<Action>, p: nat)
    requires Solo(before, p) && Solo(acts, p)
    ensures var s := Run(chain, confirmations, BLANK, before);
            var r := Run(chain, confirmations, s, acts);
            && (s.cursor.Some? ==> r.cursor.Some? && s.cursor.value <= r.cursor.value && r.start == s.start)
            && (r.cursor.Some? ==>
                  forall block: nat, k | r.start <= block <= r.cursor.value && k in chain(block) :: k in r.inserted)
  {
    SoloNeverBack(chain, confirmations, BLANK, before, p);
    RunIsSound(chain, confirmations, BLANK, before);
    RunIsComplete(chain, confirmations, BLANK, before);
    var s := Run(chain, confirmations, BLANK, before);
    SoloNeverBack(chain, confirmations, s, acts, p);
    RunIsComplete(chain, confirmations, s, acts);
  }

  // ---------- A backfill beside other processes ----------

  /** A log is of one block. */
  ghost predicate OneBlockEach(chain: Chain) {
    forall a: nat, b: nat, k | k in chain(a) && k in chain(b) :: a == b
  }

  /** Every log of the blocks from the start block to the cursor is in the table. */
  ghost predicate CoversToCursor(chain: Chain, s: State) {
    s.cursor.Some? ==> Covered(chain, s.inserted, s.start, s.cursor.value + 1)
  }

  ghost predicate StaysCovered(chain: Chain, confirmations: nat, s: State) {
    forall acts: seq<Action> | NoBackfill(acts) :: CoversToCursor(chain, Run(chain, confirmations, s, acts))
  }

  lemma {:induction false} SeededRunIsClean(chain: Chain, confirmations: nat, s: State, acts: seq<Action>)
    requires s.cursor.Some? && NoBackfill(acts)
    ensures CleanRun(chain, confirmations, s, acts)
    decreases |acts|
  {
    hide LogsIn, InsertRows, Covered;
    if acts != [] {
      assert acts[0] in acts;
      SeededRunIsClean(chain, confirmations, Step(chain, confirmations, s, acts[0]), acts[1..]);
    }
  }

  /** What process q does next puts the cursor past everything before its chunk. */
  function GoOn(chain: Chain, x: Scan, q: nat): seq<Action> {
    if x.stored then [SetCursor(q)]
    else [Insert(q, |LogsIn(chain, x.next, ChunkEnd(x.next, x.last))|), SetCursor(q)]
  }

  lemma GoOnDoes(chain: Chain, confirmations: nat, s: State, q: nat)
    requires Sound(chain, s) && q in s.scans && s.cursor.Some?
    ensures var x := s.scans[q];
            var end := ChunkEnd(x.next, x.last);
            var r := Run(chain, confirmations, s, GoOn(chain, x, q));
            && r.cursor == Some(end) && r.start == s.start && x.next <= end
            && (forall k <- r.inserted :: k in s.inserted || k in LogsIn(chain, x.next, end))
            && NoBackfill(GoOn(chain, x, q))
  {
    hide LogsIn, InsertRows, Covered, Distinct;
    var x := s.scans[q];
    var rows := LogsIn(chain, x.next, ChunkEnd(x.next, x.last));
    InsertOnce(s.inserted, rows);
    RunOne(chain, confirmations, s, SetCursor(q));
    if !x.stored {
      var a := Insert(q, |rows|);
      RunTwo(chain, confirmations, s, a, SetCursor(q));
    }
  }

  lemma RunOne(chain: Chain, confirmations: nat, s: State, a: Action)
    ensures Run(chain, confirmations, s, [a]) == Step(chain, confirmations, s, a)
  {
    hide Step;
    assert [a][1..] == [];
  }

  lemma RunTwo(chain: Chain, confirmations: nat, s: State, a: Action, b: Action)
    ensures Run(chain, confirmations, s, [a, b]) == Step(chain, confirmations, Step(chain, confirmations, s, a), b)
  {
    hide Step;
    assert [a, b][1..] == [b] && [b][1..] == [];
    RunOne(chain, confirmations, Step(chain, confirmations, s, a), b);
  }

  /** A scan that has a block from the start block on ahead of the seed but not behind it leaves a hole. */
  lemma HoleShows(chain: Chain, confirmations: nat, s: State, q: nat)
    requires Sound(chain, s) && OneBlockEach(chain) && q in s.scans && s.cursor.Some?
    requires !Covered(chain, s.inserted, s.start, s.scans[q].next)
    ensures !CoversToCursor(chain, Run(chain, confirmations, s, GoOn(chain, s.scans[q], q)))
  {
    hide LogsIn;
    var x := s.scans[q];
    var block: nat, k :| s.start <= block < x.next && k in chain(block) && k !in s.inserted;
    GoOnDoes(chain, confirmations, s, q);
    LogsInOnly(chain, x.next, ChunkEnd(x.next, x.last));
  }

  /** After a backfill's seed every continuation keeps everything from its start block to the cursor in the table,
      exactly when each scan of another process in flight at the seed has all of it behind it already; with none in
      flight, always. The start block is the backfill's first, or block 1 when that is block 0. */
  lemma BackfillCoversIff(chain: Chain, confirmations: nat, before: seq<Action>, p: nat, latest: nat, lookback: nat)
    requires OneBlockEach(chain)
    ensures var s := Run(chain, confirmations, BLANK, before);
            var t := Step(chain, confirmations, s, Backfill(p, latest, lookback));
            && t.start == (if latest > lookback then latest - lookback else 1)
            && (StaysCovered(chain, confirmations, t) <==> OthersCover(chain, s, p, t.start))
            && (s.scans.Keys <= {p} ==> StaysCovered(chain, confirmations, t))
  {
    hide Sound, LogsIn, InsertRows, CoversToCursor;
    BlankIsSound(chain);
    RunIsSound(chain, confirmations, BLANK, before);
    var s := Run(chain, confirmations, BLANK, before);
    var a := Backfill(p, latest, lookback);
    StepIsSound(chain, confirmations, s, a);
    var t := Step(chain, confirmations, s, a);
    if OthersCover(chain, s, p, t.start) {
      SeedIsComplete(chain, confirmations, s, p, latest, lookback);
      forall acts: seq<Action> | NoBackfill(acts)
        ensures CoversToCursor(chain, Run(chain, confirmations, t, acts))
      {
        SeededRunIsClean(chain, confirmations, t, acts);
        RunIsComplete(chain, confirmations, t, acts);
        CompleteCovers(chain, Run(chain, confirmations, t, acts));
      }
    } else {
      var q :| q in s.scans && q != p && !Covered(chain, s.inserted, t.start, s.scans[q].next);
      GoOnDoes(chain, confirmations, t, q);
      HoleShows(chain, confirmations, t, q);
    }
  }

  lemma BlankIsSound(chain: Chain)
    ensures Sound(chain, BLANK)
  {
  }

  lemma SeedIsComplete(chain: Chain, confirmations: nat, s: State, p: nat, latest: nat, lookback: nat)
    requires OthersCover(chain, s, p, BackfillSeed(latest, lookback) + 1)
    ensures Complete(chain, Step(chain, confirmations, s, Backfill(p, latest, lookback)))
  {
  }

  lemma CompleteCovers(chain: Chain, s: State)
    requires Complete(chain, s)
    ensures CoversToCursor(chain, s)
  {
  }

  // ---------- RunOnce as the loop it is ----------

  class Ingest {
    var cursor: Option<nat>
    var inserted: seq<Key>

    constructor ()
      ensures cursor == None && inserted == []
    {
      cursor, inserted := None, [];
    }

    /** InsertRawLogs: how many rows were new. */
    method InsertRawLogs(rows: seq<Key>) returns (count: nat)
      modifies this`inserted
      ensures inserted == InsertRows(old(inserted), rows)
      ensures count == |inserted| - |old(inserted)|
    {
      count := 0;
      for i := 0 to |rows|
        invariant InsertRows(inserted, rows[i..]) == InsertRows(old(inserted), rows)
        invariant |inserted| == |old(inserted)| + count
      {
        assert rows[i..][1..] == rows[i + 1..];
        if rows[i] !in inserted {
          inserted := inserted + [rows[i]];
          count := count + 1;
        }
      }
    }

    /** A chunk's rows, then the cursor. */
    method StoreChunk(rows: seq<Key>, end: nat)
      modifies this
      ensures inserted == InsertRows(old(inserted), rows) && cursor == Some(end)
    {
      var _ := InsertRawLogs(rows);
      cursor := Some(end);
    }

    /** One scan. `good` chunks complete before a failure, which strikes after `partial` rows of the next
        one: the chunks done are the first of the tiling, the cursor stands at the end of the last of
        them, and the rows are those chunks' and at most `partial` more. */
    method RunOnce(chain: Chain, confirmations: nat, latest: nat, good: nat, partial: nat)
      returns (ok: bool, ghost n: nat)
      modifies this
      ensures latest < confirmations || FirstBlock(old(cursor), latest - confirmations) > latest - confirmations ==>
                ok && n == 0 && cursor == old(cursor) && inserted == old(inserted)
      ensures latest >= confirmations ==>
                var last := latest - confirmations;
                var all := Chunks(FirstBlock(old(cursor), last), last);
                && n == (if good < |all| then good else |all|)
                && (ok <==> n == |all|)
                && cursor == (if n == 0 then old(cursor) else Some(all[n - 1].1))
                && inserted == (if ok then Stored(chain, old(inserted), all) else
                                InsertRows(Stored(chain, old(inserted), all[..n]),
                                           Prefix(LogsIn(chain, all[n].0, all[n].1), partial)))
    {
      n := 0;
      if latest < confirmations {
        return true, 0;
      }
      hide LogsIn, Stored, InsertRows, Chunks, ChunkEnd, Prefix;
      var last := latest - confirmations;
      var chunkStart := FirstBlock(cursor, last);
      ghost var all := Chunks(chunkStart, last);
      ghost var first := chunkStart;
      NoChunks(chunkStart, last);
      StoredNone(chain, inserted);
      if all != [] {
        ChunkAt(first, last, 0);
      }
      var left := good;
      while chunkStart <= last
        invariant n <= |all| && left == good - n
        invariant chunkStart <= last <==> n < |all|
        invariant n < |all| ==> chunkStart == all[n].0
        invariant cursor == if n == 0 then old(cursor) else Some(all[n - 1].1)
        invariant inserted == Stored(chain, old(inserted), all[..n])
        decreases 1 + last - chunkStart
      {
        var chunkEnd := ChunkEnd(chunkStart, last);
        var rows := LogsIn(chain, chunkStart, chunkEnd);
        ChunkAt(first, last, n);
        if left == 0 {
          var _ := InsertRawLogs(Prefix(rows, partial));
          return false, n;
        }
        StoredOne(chain, old(inserted), all[..n], all[n]);
        assert all[..n + 1] == all[..n] + [all[n]];
        StoreChunk(rows, chunkEnd);
        left := left - 1;
        n := n + 1;
        chunkStart := chunkEnd + 1;
      }
      assert all[..|all|] == all;
      ok := true;
    }
  }

  lemma NoChunks(from: nat, last: nat)
    ensures from > last <==> Chunks(from, last) == []
  {
  }

  lemma StoredNone(chain: Chain, inserted: seq<Key>)
    ensures Stored(chain, inserted, []) == inserted
  {
  }

  function Prefix(rows: seq<Key>, k: nat): seq<Key> {
    if k < |rows| then rows[..k] else rows
  }

  /** The inserts of whole chunks, one after another. */
  function Stored(chain: Chain, inserted: seq<Key>, done: seq<(nat, nat)>): seq<Key> {
    if done == [] then inserted
    else InsertRows(Stored(chain, inserted, done[..|done| - 1]), LogsIn(chain, done[|done| - 1].0, done[|done| - 1].1))
  }

  lemma StoredOne(chain: Chain, inserted: seq<Key>, done: seq<(nat, nat)>, c: (nat, nat))
    ensures Stored(chain, inserted, done + [c]) == InsertRows(Stored(chain, inserted, done), LogsIn(chain, c.0, c.1))
  {
  }

  // ---------- A scan as a run of the process it is ----------

  /** Each chunk ends where its block count or the scan ends, and the next one starts right after. */
  lemma {:induction false} ChunkAt(from: nat, last: nat, i: nat)
    requires i < |Chunks(from, last)|
    ensures var c := Chunks(from, last);
            && c[i].0 <= c[i].1 == ChunkEnd(c[i].0, last) <= last
            && (i == |c| - 1 <==> c[i].1 == last)
            && (i + 1 < |c| ==> c[i + 1].0 == c[i].1 + 1)
            && c[0].0 == from
    decreases i
  {
    if from <= last {
      var rest := Chunks(ChunkEnd(from, last) + 1, last);
      if i > 0 {
        ChunkAt(ChunkEnd(from, last) + 1, last, i - 1);
        assert Chunks(from, last)[i] == rest[i - 1];
      }
    }
  }

  lemma {:induction false} RunMore(chain: Chain, confirmations: nat, s: State, a: seq<Action>, b: seq<Action>)
    ensures Run(chain, confirmations, s, a + b)
            == Run(chain, confirmations, Run(chain, confirmations, s, a), b)
    decreases |a|
  {
    hide Step;
    if a == [] {
      assert a + b == b;
    } else {
      assert (a + b)[1..] == a[1..] + b;
      RunMore(chain, confirmations, Step(chain, confirmations, s, a[0]), a[1..], b);
    }
  }

  /** One chunk: its rows, then the cursor. */
  lemma ChunkRuns(chain: Chain, confirmations: nat, s: State, p: nat, next: nat, last: nat)
    requires p in s.scans && s.scans[p] == Scan(next, last, false)
    ensures var end, rows := ChunkEnd(next, last), LogsIn(chain, next, ChunkEnd(next, last));
            var r := Run(chain, confirmations, s, [Insert(p, |rows|), SetCursor(p)]);
            && r.inserted == InsertRows(s.inserted, rows) && r.cursor == Some(end)
            && (end != last ==> p in r.scans && r.scans[p] == Scan(end + 1, last, false))
  {
    hide LogsIn, InsertRows, ChunkEnd;
    RunTwo(chain, confirmations, s, Insert(p, |LogsIn(chain, next, ChunkEnd(next, last))|), SetCursor(p));
  }

  /** The first n chunks of a scan. */
  lemma {:induction false} ChunksRun(chain: Chain, confirmations: nat, s: State, p: nat, next: nat, last: nat, n: nat)
    returns (acts: seq<Action>)
    requires p in s.scans && s.scans[p] == Scan(next, last, false) && n <= |Chunks(next, last)|
    ensures var r, all := Run(chain, confirmations, s, acts), Chunks(next, last);
            && r.inserted == Stored(chain, s.inserted, all[..n])
            && r.cursor == (if n == 0 then s.cursor else Some(all[n - 1].1))
            && (n < |all| ==> p in r.scans && r.scans[p] == Scan(all[n].0, last, false))
    decreases n
  {
    hide LogsIn, InsertRows, Chunks, ChunkEnd, Run, Step, Stored;
    var all := Chunks(next, last);
    if n == 0 {
      acts := [];
      RunNone(chain, confirmations, s);
      StoredNone(chain, s.inserted);
      if 0 < |all| {
        ChunkAt(next, last, 0);
      }
    } else {
      var before := ChunksRun(chain, confirmations, s, p, next, last, n - 1);
      var t := Run(chain, confirmations, s, before);
      var (a, b) := all[n - 1];
      ChunkAt(next, last, n - 1);
      ChunkRuns(chain, confirmations, t, p, a, last);
      StoredOne(chain, s.inserted, all[..n - 1], all[n - 1]);
      assert all[..n] == all[..n - 1] + [all[n - 1]];
      var step := [Insert(p, |LogsIn(chain, a, ChunkEnd(a, last))|), SetCursor(p)];
      RunMore(chain, confirmations, s, before, step);
      acts := before + step;
    }
  }

  lemma RunNone(chain: Chain, confirmations: nat, s: State)
    ensures Run(chain, confirmations, s, []) == s
  {
  }

  /** A whole scan, however many chunks complete and wherever in the next one it fails, is a run of the process: what
      RunOnce leaves is a state the theorems above are about. */
  lemma ScanIsARun(chain: Chain, confirmations: nat, s: State, p: nat, latest: nat, good: nat, partial: nat)
    returns (acts: seq<Action>)
    requires latest >= confirmations && FirstBlock(s.cursor, latest - confirmations) <= latest - confirmations
    ensures var last := latest - confirmations;
            var all := Chunks(FirstBlock(s.cursor, last), last);
            var n := if good < |all| then good else |all|;
            var r := Run(chain, confirmations, s, acts);
            && r.cursor == (if n == 0 then s.cursor else Some(all[n - 1].1))
            && r.inserted == (if n == |all| then Stored(chain, s.inserted, all) else
                              InsertRows(Stored(chain, s.inserted, all[..n]),
                                         Prefix(LogsIn(chain, all[n].0, all[n].1), partial)))
  {
    hide LogsIn, InsertRows, Chunks, ChunkEnd, Run, Stored;
    var last := latest - confirmations;
    var next := FirstBlock(s.cursor, last);
    var all := Chunks(next, last);
    var n := if good < |all| then good else |all|;
    RunOne(chain, confirmations, s, Begin(p, latest));
    var t := Run(chain, confirmations, s, [Begin(p, latest)]);
    var chunks := ChunksRun(chain, confirmations, t, p, next, last, n);
    RunMore(chain, confirmations, s, [Begin(p, latest)], chunks);
    acts := [Begin(p, latest)] + chunks;
    assert all[..|all|] == all;
    if n < |all| {
      var u := Run(chain, confirmations, s, acts);
      ChunkAt(next, last, n);
      RunOne(chain, confirmations, u, Insert(p, partial));
      RunMore(chain, confirmations, s, acts, [Insert(p, partial)]);
      acts := acts + [Insert(p, partial)];
    }
  }

  // ---------- Backfill's seed ----------

  /** The scan after the seed resumes at the backfill's first block, except when that is block 0: the seed
      then says block 0 is done, and it is not scanned. */
  lemma BackfillResumes(latest: nat, lookback: nat, last: nat)
    ensures BackfillFrom(latest, lookback) == if latest > lookback then latest - lookback else 0
    ensures FirstBlock(Some(BackfillSeed(latest, lookback)), last) == BackfillFrom(latest, lookback)
            <==> latest > lookback
  {
  }

  // ---------- Block times ----------

  /** Linear between two headers, clamped outside them; times are nanoseconds. */
  function InterpolateBlockTime(tFrom: int, tTo: int, from: nat, last: nat, block: nat): int {
    if last <= from || block <= from then tFrom
    else if block >= last then tTo
    else tFrom + Share(tTo - tFrom, block - from, last - from)
  }

  /** The part of a span, cut to a whole nanosecond toward zero. */
  function Share(span: int, part: nat, whole: nat): int
    requires whole > 0
  {
    if span < 0 then 0 - (0 - span) * part / whole else span * part / whole
  }

  /** Between the headers the time is on the straight line, cut to a whole nanosecond toward the first header's; at and
      outside them it is theirs. */
  lemma BlockTimeIsLinear(tFrom: int, tTo: int, from: nat, last: nat, block: nat)
    ensures var t := InterpolateBlockTime(tFrom, tTo, from, last, block);
            var gone := if tFrom <= tTo then t - tFrom else tFrom - t;
            var span := if tFrom <= tTo then tTo - tFrom else tFrom - tTo;
            if from < block < last then
              gone * (last - from) <= span * (block - from) < (gone + 1) * (last - from)
            else t == if from < last <= block then tTo else tFrom
  {
    if from < block < last {
      Divides((if tFrom <= tTo then tTo - tFrom else tFrom - tTo) * (block - from), last - from);
    }
  }

  lemma ShareIsOrdered(span: nat, a: nat, b: nat, whole: nat)
    requires a <= b <= whole && whole > 0
    ensures 0 <= Share(span, a, whole) <= Share(span, b, whole) <= span
  {
    assert span * a <= span * b <= span * whole;
    DivisionIsOrdered(0, span * a, whole);
    DivisionIsOrdered(span * a, span * b, whole);
    DivisionIsOrdered(span * b, span * whole, whole);
    DivisionCancels(span, whole);
  }

  lemma TimesOrder(w: nat, p: int, q: int)
    ensures p > q ==> w * p >= w * q + w
  {
    if p > q {
      var d := p - q - 1;
      assert w * p == w * q + w + w * d;
      assert w * d >= 0;
    }
  }

  lemma DivisionIsOrdered(x: nat, y: nat, w: nat)
    requires x <= y && w > 0
    ensures x / w <= y / w
  {
    TimesOrder(w, x / w, y / w);
    Divides(x, w);
    Divides(y, w);
  }

  lemma Divides(x: nat, w: nat)
    requires w > 0
    ensures w * (x / w) <= x < w * (x / w) + w
  {
  }

  lemma DivisionCancels(s: nat, w: nat)
    requires w > 0
    ensures s * w / w == s
  {
    var x := s * w;
    Divides(x, w);
    TimesOrder(w, x / w, s);
    TimesOrder(w, s, x / w);
    assert x == w * s;
  }

  /** Later blocks never get earlier times, and every time lies between the two headers. */
  lemma BlockTimesAreOrdered(tFrom: int, tTo: int, from: nat, last: nat, a: nat, b: nat)
    requires tFrom <= tTo && a <= b
    ensures tFrom <= InterpolateBlockTime(tFrom, tTo, from, last, a)
                  <= InterpolateBlockTime(tFrom, tTo, from, last, b) <= tTo
  {
    hide Share;
    if from < a < last {
      ShareIsOrdered(tTo - tFrom, a - from, if b < last then b - from else a - from, last - from);
    }
    if from < b < last {
      ShareIsOrdered(tTo - tFrom, b - from, b - from, last - from);
    }
  }
}
