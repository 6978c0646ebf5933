/** The live feed end to end: commits to the signals table, the tail that broadcasts them
    (internal/api/server.go), the hub, and the handlers that replay and then stream
    (internal/api/sse.go), interleaved step by step. Signals are their ids. */
module LiveFeed {
  import opened IdChains
  import opened LiveHub

  const REPLAY_CAP: nat := 500
  const REPLAY_N: nat := 20
  const TAIL_BATCH: nat := 200

  // ---------- The signals table: ids in commit order, and the two reads of it ----------

  /** How many rows have an id of at most `a`. */
  function Rank(db: seq<nat>, a: nat): (k: nat)
    ensures k <= |db| && (k < |db| ==> db[k] > a)
    ensures forall i | 0 <= i < k :: db[i] <= a
  {
    if db == [] || db[0] > a then 0 else
      var k := Rank(db[1..], a);
      assert forall i | 1 <= i < k + 1 :: db[i] == db[1..][i - 1];
      k + 1
  }

  function SignalsAfterID(db: seq<nat>, after: nat, limit: nat): seq<nat> {
    var k := Rank(db, after);
    db[k..if k + limit < |db| then k + limit else |db|]
  }

  /** MAX(id), with 0 standing for the empty table. */
  function MaxSignalID(db: seq<nat>): nat {
    if db == [] then 0 else db[|db| - 1]
  }

  /** In a sorted table the rank is the only split point. */
  lemma {:induction false} RankIs(db: seq<nat>, a: nat, k: nat)
    requires Sorted(db) && k <= |db|
    requires k > 0 ==> db[k - 1] <= a
    requires k < |db| ==> db[k] > a
    ensures Rank(db, a) == k
  {
    if k > 0 {
      assert db[0] <= db[k - 1];
      RankIs(db[1..], a, k - 1);
    }
  }

  lemma RankAt(db: seq<nat>, k: nat)
    requires Sorted(db) && k < |db|
    ensures Rank(db, db[k]) == k + 1
  {
    RankIs(db, db[k], k + 1);
  }

  /** A row lies in (a, e] exactly when its position lies between the two ranks. */
  lemma RankBetween(db: seq<nat>, a: nat, k: nat)
    requires Sorted(db) && k < |db|
    ensures db[k] > a <==> Rank(db, a) <= k
  {
    var r := Rank(db, a);
    if r <= k && r != k {
      assert db[r] < db[k];
    }
  }

  lemma RankOfCommit(db: seq<nat>, id: nat, a: nat)
    requires Sorted(db) && id > MaxSignalID(db) && a < id
    ensures Sorted(db + [id]) && Rank(db + [id], a) == Rank(db, a)
  {
    RankIs(db + [id], a, Rank(db, a));
  }

  lemma {:induction false} SortedGap(db: seq<nat>, i: nat, j: nat)
    requires Sorted(db) && i <= j < |db|
    ensures db[i] + (j - i) <= db[j]
    decreases j
  {
    if i < j {
      SortedGap(db, i, j - 1);
      assert db[j - 1] < db[j];
    }
  }

  /** Ids may skip numbers but never repeat: at most n rows have an id above MAX(id) - n. */
  lemma RecentWindow(db: seq<nat>, a: nat)
    requires Sorted(db)
    ensures |db| - Rank(db, a) <= if a <= MaxSignalID(db) then MaxSignalID(db) - a else 0
  {
    if Rank(db, a) < |db| {
      SortedGap(db, Rank(db, a), |db| - 1);
    }
  }

  /** The replay hands over every row up to the subscription point exactly when at most `limit` rows
      lie between the two. */
  lemma ReplayReaches(db: seq<nat>, after: nat, entry: nat, limit: nat)
    requires Sorted(db)
    ensures (forall id <- db :: after < id <= entry ==> id in SignalsAfterID(db, after, limit))
            <==> Rank(db, entry) <= Rank(db, after) + limit
  {
    var k, e := Rank(db, after), Rank(db, entry);
    if e <= k + limit {
      forall id <- db | after < id <= entry
        ensures id in SignalsAfterID(db, after, limit)
      {
        RowInReplay(db, after, entry, limit, id);
      }
    } else {
      RowBeyondReplay(db, after, limit, k + limit);
      RankBetween(db, entry, k + limit);
    }
  }

  lemma RowInReplay(db: seq<nat>, after: nat, entry: nat, limit: nat, id: nat)
    requires Sorted(db) && Rank(db, entry) <= Rank(db, after) + limit && id in db && after < id <= entry
    ensures id in SignalsAfterID(db, after, limit)
  {
    hide Rank;
    var i :| 0 <= i < |db| && db[i] == id;
    RankBetween(db, after, i);
    RankBetween(db, entry, i);
    assert SignalsAfterID(db, after, limit)[i - Rank(db, after)] == id;
  }

  lemma RowBeyondReplay(db: seq<nat>, after: nat, limit: nat, i: nat)
    requires Sorted(db) && Rank(db, after) + limit <= i < |db|
    ensures db[i] > after && db[i] !in SignalsAfterID(db, after, limit)
  {
    RankBetween(db, after, i);
  }

  // ---------- The state ----------

  datatype ConnId = ConnId(browser: nat, session: nat)

  /** The tail's cursor, the rows of the poll in hand, and the id it was seeded at. */
  datatype Tail = Tail(seeded: bool, floor: nat, cursor: nat, batch: seq<nat>)

  /** What a handler has written to its stream, and its `lastWritten`. */
  datatype Writer = Writer(out: seq<nat>, last: nat)

  datatype Phase = Away | Opened | Aimed | Replaying(rows: seq<nat>) | Live | Done

  /** One EventSource. `got` is what earlier sessions delivered (its Last-Event-ID is the last of
      these); `origin` is where its current chain of sessions began. `entry` is the id up to which a
      session depends on its replay, everything later reaching its channel. `recent` records a
      MAX(id) read that succeeded against a seeded tail; `covered` a replay read that succeeded with
      the tail seeded and at most the replay limit of rows before `entry`. `leaps` are the ids it holds
      that were taken off the channel while an earlier signal remained that only the replay could have sent. */
  datatype Browser = Browser(got: seq<nat>, origin: nat, leaps: set<nat>, session: nat, phase: Phase,
                             entry: nat, recent: bool, covered: bool, w: Writer, wire: bool)
  {
    function All(): seq<nat> { got + w.out }

    /** The newest id it has been sent, or where its chain began. */
    function Newest(): nat { Last(origin, All()) }

    function Limit(): nat { if got == [] then REPLAY_N else REPLAY_CAP }
  }

  datatype State = State(db: seq<nat>, duds: set<nat>, tail: Tail, hub: HubState<ConnId, nat>,
                         browsers: map<nat, Browser>)

  function Fresh(got: seq<nat>, origin: nat, leaps: set<nat>, session: nat): Browser {
    Browser(got, origin, leaps, session, Away, 0, false, false, Writer([], 0), true)
  }

  function Init(names: set<nat>): State {
    State([], {}, Tail(false, 0, 0, []), Empty(), map b | b in names :: Fresh([], 0, {}, 0))
  }

  // ---------- What the handler does with one row and with one event ----------

  /** One row of the replay: `ok` false when the write fails, which ends the replay. */
  function ReplayRow(w: Writer, id: nat, dud: bool, wire: bool): (r: (Writer, bool)) {
    if dud then (w.(last := id), true)
    else if wire then (Writer(w.out + [id], id), true)
    else (w, false)
  }

  /** One event off the channel: `ok` false when the write fails, which ends the stream. */
  function LiveEvent(w: Writer, id: nat, wire: bool): (r: (Writer, bool)) {
    if id <= w.last then (w, true)
    else if wire then (Writer(w.out + [id], id), true)
    else (w, false)
  }

  // ---------- The steps ----------

  datatype Action =
    | Commit(id: nat, dud: bool)
    | Seed(ok: bool)
    | Poll(ok: bool)
    | PublishNext
    | Connect(b: nat)
    | Aim(b: nat, ok: bool)
    | ReadReplay(b: nat, ok: bool)
    | WriteReplay(b: nat)
    | Deliver(b: nat)
    | BreakWire(b: nat)
    | Hangup(b: nat, k: nat)
    | Reap(c: ConnId)
    | ServerClose

  function Conn(s: State, b: nat): ConnId
    requires b in s.browsers
  {
    ConnId(b, s.browsers[b].session)
  }

  predicate Enabled(s: State, a: Action) {
    match a
    case Commit(id, _) => id > MaxSignalID(s.db)
    case Seed(_) => !s.tail.seeded
    case Poll(_) => s.tail.seeded && s.tail.batch == []
    case PublishNext => s.tail.batch != []
    case Connect(b) => b in s.browsers && s.browsers[b].phase.Away? && Conn(s, b) !in s.hub.chans
    case Aim(b, _) => b in s.browsers && s.browsers[b].phase.Opened?
    case ReadReplay(b, _) => b in s.browsers && s.browsers[b].phase.Aimed?
    case WriteReplay(b) => b in s.browsers && s.browsers[b].phase.Replaying?
    case Deliver(b) => b in s.browsers && s.browsers[b].phase.Live? && Conn(s, b) in s.hub.chans
    case BreakWire(b) => b in s.browsers
    case Hangup(b, k) => b in s.browsers && !s.browsers[b].phase.Away? && k <= |s.browsers[b].w.out|
    case Reap(c) => c.browser in s.browsers && c.session < s.browsers[c.browser].session
    case ServerClose => true
  }

  function SeedTail(s: State, ok: bool): Tail {
    var id := if ok then MaxSignalID(s.db) else 0;
    Tail(true, id, id, [])
  }

  /** The signals up to here never reach this session's channel. */
  function HandOver(t: Tail, x: Browser): nat {
    if x.entry < t.floor then t.floor else x.entry
  }

  /** The signals that can be sent. */
  function Deliverable(db: seq<nat>, duds: set<nat>): (d: set<nat>)
    ensures forall id :: id in d <==> id in db && id !in duds
  {
    set id <- db | id !in duds
  }

  /** A deliverable signal that the channel will not bring has not been sent yet. */
  predicate Remains(d: set<nat>, t: Tail, x: Browser) {
    Skips(d, x.w.last, HandOver(t, x) + 1)
  }

  /** Where the replay starts from: the client's last id, or 20 below the newest id. A failed MAX(id)
      read leaves 0, so the replay then starts at the oldest signal. */
  function AimBrowser(s: State, x: Browser, ok: bool): Browser {
    var top := MaxSignalID(s.db);
    if x.got != [] then
      x.(phase := Aimed, w := Writer([], x.got[|x.got| - 1]), recent := false)
    else
      var start := if ok && top > REPLAY_N then top - REPLAY_N else 0;
      x.(phase := Aimed, w := Writer([], start), origin := start, recent := ok && s.tail.seeded)
  }

  function ReadBrowser(s: State, x: Browser, ok: bool): Browser {
    var entry := HandOver(s.tail, x);
    var rows := if ok then SignalsAfterID(s.db, x.w.last, x.Limit()) else [];
    x.(phase := Replaying(rows), entry := entry,
       covered := ok && s.tail.seeded && Rank(s.db, entry) <= Rank(s.db, x.w.last) + x.Limit())
  }

  function WriteBrowser(s: State, x: Browser): Browser
    requires x.phase.Replaying?
  {
    var rows := x.phase.rows;
    if rows == [] then x.(phase := Live) else
      var (w, ok) := ReplayRow(x.w, rows[0], rows[0] in s.duds, x.wire);
      if ok then x.(w := w, phase := Replaying(rows[1..])) else x.(phase := Live)
  }

  function DeliverBrowser(d: set<nat>, t: Tail, x: Browser, ev: nat): Browser {
    var (w, ok) := LiveEvent(x.w, ev, x.wire);
    if !ok then x.(phase := Done)
    else if w == x.w then x
    else x.(w := w, leaps := if Remains(d, t, x) then x.leaps + {ev} else x.leaps)
  }

  /** One turn of the streaming loop: an event, or the end of a closed and drained channel. */
  function DeliverStep(s: State, b: nat): State
    requires b in s.browsers && Conn(s, b) in s.hub.chans
  {
    var x, c := s.browsers[b], Conn(s, b);
    var ch := s.hub.chans[c];
    if ch.taken < |ch.history| then
      var y := DeliverBrowser(Deliverable(s.db, s.duds), s.tail, x, ch.history[ch.taken]);
      var h := Receive(s.hub, c);
      s.(hub := if y.phase.Done? then Unsubscribe(h, c) else h, browsers := s.browsers[b := y])
    else if !ch.open then s.(browsers := s.browsers[b := x.(phase := Done)])
    else s
  }

  /** The tail's turn for one row: a row that does not marshal is skipped, the cursor moves anyway. */
  function PublishStep(s: State): State
    requires s.tail.batch != []
  {
    var id := s.tail.batch[0];
    s.(tail := s.tail.(cursor := id, batch := s.tail.batch[1..]),
       hub := if id in s.duds then s.hub else Broadcast(s.hub, id))
  }

  function HangupBrowser(x: Browser, k: nat): Browser
    requires k <= |x.w.out|
  {
    var got := x.got + x.w.out[..k];
    var leaps := set id | id in x.leaps && id in got;
    Fresh(got, x.origin, leaps, x.session + 1)
  }

  function ConnectStep(s: State, b: nat): State
    requires b in s.browsers && Conn(s, b) !in s.hub.chans
  {
    var (h, ok) := Subscribe(s.hub, Conn(s, b));
    if !ok then s else
      var x := s.browsers[b].(phase := Opened, entry := s.tail.cursor);
      s.(hub := h, browsers := s.browsers[b := x])
  }

  function Step(s: State, a: Action): State
    requires Enabled(s, a)
  {
    match a
    case Commit(id, dud) => s.(db := s.db + [id], duds := if dud then s.duds + {id} else s.duds)
    case Seed(ok) => s.(tail := SeedTail(s, ok))
    case Poll(ok) =>
      if ok then s.(tail := s.tail.(batch := SignalsAfterID(s.db, s.tail.cursor, TAIL_BATCH))) else s
    case PublishNext => PublishStep(s)
    case Connect(b) => ConnectStep(s, b)
    case Aim(b, ok) => s.(browsers := s.browsers[b := AimBrowser(s, s.browsers[b], ok)])
    case ReadReplay(b, ok) => s.(browsers := s.browsers[b := ReadBrowser(s, s.browsers[b], ok)])
    case WriteReplay(b) => s.(browsers := s.browsers[b := WriteBrowser(s, s.browsers[b])])
    case Deliver(b) => DeliverStep(s, b)
    case BreakWire(b) => s.(browsers := s.browsers[b := s.browsers[b].(wire := false)])
    case Hangup(b, k) =>
      s.(browsers := s.browsers[b := HangupBrowser(s.browsers[b], k)])
    case Reap(c) => s.(hub := Unsubscribe(s.hub, c))
    case ServerClose => s.(hub := Close(s.hub))
  }

  // ---------- What holds in every reachable state ----------

  ghost predicate Wanted(db: seq<nat>, duds: set<nat>, lo: nat, hi: nat, id: nat) {
    id in db && id !in duds && lo < id <= hi
  }

  /** `part` is the stretch of the table that follows the rows up to `after`. */
  ghost predicate NextRows(db: seq<nat>, after: nat, part: seq<nat>) {
    Rank(db, after) + |part| <= |db| && part == db[Rank(db, after)..Rank(db, after) + |part|]
  }

  ghost predicate TailOk(db: seq<nat>, t: Tail) {
    && Sorted(db)
    && t.floor <= t.cursor <= MaxSignalID(db)
    && NextRows(db, t.cursor, t.batch)
    && (!t.seeded ==> t.cursor == 0 && t.batch == [])
  }

  /** The broadcasts so far: in order, each a committed signal past the seed, none left out up to the
      newest of them, and none left out up to the cursor while the hub is open. */
  ghost predicate LogOk(db: seq<nat>, duds: set<nat>, t: Tail, log: seq<nat>, closed: bool) {
    && Sorted(log)
    && (forall i | 0 <= i < |log| :: Wanted(db, duds, t.floor, t.cursor, log[i]))
    && (forall i, id | 0 <= i < |log| && Wanted(db, duds, t.floor, log[i], id) :: id in log)
    && (!closed ==> forall id | Wanted(db, duds, t.floor, t.cursor, id) :: id in log)
  }

  /** The ids a browser holds: in order, and all of them deliverable signals. */
  ghost predicate HoldOk(db: seq<nat>, duds: set<nat>, x: Browser) {
    && Sorted(x.All())
    && (forall i | 0 <= i < |x.All()| :: x.All()[i] in db && x.All()[i] !in duds)
    && ((x.phase.Away? || x.phase.Opened?) ==> x.w.out == [])
    && x.w.last <= MaxSignalID(db) && x.entry <= MaxSignalID(db)
    && (!x.phase.Away? && !x.phase.Opened? ==>
          forall i | 0 <= i < |x.All()| :: x.All()[i] <= x.w.last)
  }

  /** The writer may have passed its newest id, but nothing deliverable. */
  ghost predicate RunOk(db: seq<nat>, duds: set<nat>, x: Browser) {
    && ChainOk(Deliverable(db, duds), x.origin, x.All(), x.leaps)
    && (!x.phase.Away? && !x.phase.Opened? ==>
          x.Newest() <= x.w.last && !Skips(Deliverable(db, duds), x.Newest(), x.w.last + 1))
  }

  /** While its stream can still be written, a covered session depends on its replay only for rows that
      the replay still holds. */
  ghost predicate HandoffOk(db: seq<nat>, t: Tail, x: Browser) {
    && (x.phase.Aimed? && x.recent ==>
          t.seeded && Rank(db, HandOver(t, x)) <= Rank(db, x.w.last) + REPLAY_N)
    && (x.phase.Aimed? && x.recent ==> x.got == [])
    && (x.phase.Replaying? ==> NextRows(db, x.w.last, x.phase.rows))
    && (x.covered && x.wire && x.phase.Replaying? ==>
          t.seeded && t.floor <= x.entry && Rank(db, x.entry) <= Rank(db, x.w.last) + |x.phase.rows|)
    && (x.covered && x.wire && x.phase.Live? ==>
          t.seeded && t.floor <= x.entry && Rank(db, x.entry) <= Rank(db, x.w.last))
  }

  /** A session's channel holds the broadcasts later than `entry`, and what was taken off it is behind
      the writer. */
  ghost predicate ChannelLinked(log: seq<nat>, ch: Channel<nat>, x: Browser) {
    && ch.since <= |log|
    && (forall i | 0 <= i < ch.since :: log[i] <= x.entry)
    && (forall i | ch.since <= i < |log| :: log[i] > x.entry)
    && (ch.taken > 0 ==> x.phase.Live? || x.phase.Done?)
    && ch.taken <= |ch.history|
    && (forall i | 0 <= i < ch.taken && x.phase.Live? :: ch.history[i] <= x.w.last)
  }

  ghost predicate BrowserOk(db: seq<nat>, duds: set<nat>, t: Tail, h: HubState<ConnId, nat>, b: nat, x: Browser) {
    && HoldOk(db, duds, x)
    && RunOk(db, duds, x)
    && HandoffOk(db, t, x)
    && (!x.phase.Away? ==> ConnId(b, x.session) in h.chans && x.entry <= t.cursor
                           && ChannelLinked(h.log, h.chans[ConnId(b, x.session)], x))
  }

  ghost predicate Good(s: State) {
    && Inv(s.hub)
    && TailOk(s.db, s.tail)
    && LogOk(s.db, s.duds, s.tail, s.hub.log, s.hub.closed)
    && (forall c <- s.hub.chans :: c.browser in s.browsers && c.session <= s.browsers[c.browser].session)
    && (forall b <- s.browsers :: s.browsers[b].phase.Away? ==> ConnId(b, s.browsers[b].session) !in s.hub.chans)
    && forall b <- s.browsers :: BrowserOk(s.db, s.duds, s.tail, s.hub, b, s.browsers[b])
  }

  // ---------- Each step keeps it ----------

  lemma MaxIsMax(db: seq<nat>, id: nat)
    requires Sorted(db) && id in db
    ensures id <= MaxSignalID(db)
  {
  }

  lemma CommitRows(db: seq<nat>, id: nat, after: nat, part: seq<nat>)
    requires Sorted(db) && id > MaxSignalID(db) && after < id && NextRows(db, after, part)
    ensures NextRows(db + [id], after, part)
  {
    RankOfCommit(db, id, after);
  }

  lemma CommitTail(db: seq<nat>, t: Tail, id: nat)
    requires TailOk(db, t) && id > MaxSignalID(db)
    ensures TailOk(db + [id], t)
  {
    RankOfCommit(db, id, t.cursor);
    CommitRows(db, id, t.cursor, t.batch);
  }

  lemma CommitLog(db: seq<nat>, duds: set<nat>, t: Tail, log: seq<nat>, closed: bool, id: nat, more: set<nat>)
    requires LogOk(db, duds, t, log, closed) && TailOk(db, t) && id > MaxSignalID(db) && more <= {id}
    ensures LogOk(db + [id], duds + more, t, log, closed)
  {
  }

  lemma CommitHold(db: seq<nat>, duds: set<nat>, x: Browser, id: nat, more: set<nat>)
    requires Sorted(db) && id > MaxSignalID(db) && more <= {id} && HoldOk(db, duds, x)
    ensures HoldOk(db + [id], duds + more, x)
  {
  }

  /** A commit adds at most one deliverable signal, newer than all the others. */
  lemma CommitDeliverable(db: seq<nat>, duds: set<nat>, id: nat, more: set<nat>)
    requires Sorted(db) && id > MaxSignalID(db) && more <= {id}
    ensures var d, d' := Deliverable(db, duds), Deliverable(db + [id], duds + more);
            d <= d' && d' - d <= {id}
  {
    assert forall x <- db :: x in db + [id] && x != id;
  }

  lemma CommitRun(db: seq<nat>, duds: set<nat>, x: Browser, id: nat, more: set<nat>)
    requires Sorted(db) && id > MaxSignalID(db) && more <= {id}
    requires HoldOk(db, duds, x) && RunOk(db, duds, x)
    ensures RunOk(db + [id], duds + more, x)
  {
    hide ChainOk, Skips, Deliverable;
    var d, d' := Deliverable(db, duds), Deliverable(db + [id], duds + more);
    CommitDeliverable(db, duds, id, more);
    forall k | 0 <= k < |x.All()|
      ensures x.All()[k] < id
    {
      MaxIsMax(db, x.All()[k]);
    }
    ChainGrows(d, x.origin, x.All(), x.leaps, d');
    SkipsGrow(d, d', x.Newest(), x.w.last + 1);
  }

  lemma CommitHandoff(db: seq<nat>, t: Tail, x: Browser, id: nat)
    requires TailOk(db, t) && id > MaxSignalID(db) && HandoffOk(db, t, x)
    requires x.w.last <= MaxSignalID(db) && x.entry <= MaxSignalID(db)
    ensures HandoffOk(db + [id], t, x)
  {
    RankOfCommit(db, id, x.w.last);
    RankOfCommit(db, id, x.entry);
    RankOfCommit(db, id, t.floor);
    if x.phase.Replaying? {
      CommitRows(db, id, x.w.last, x.phase.rows);
    }
  }

  lemma CommitKeeps(s: State, id: nat, dud: bool)
    requires Good(s) && Enabled(s, Commit(id, dud))
    ensures Good(Step(s, Commit(id, dud)))
  {
    var r := Step(s, Commit(id, dud));
    var more := if dud then {id} else {};
    assert r.duds == s.duds + more;
    CommitTail(s.db, s.tail, id);
    CommitLog(s.db, s.duds, s.tail, s.hub.log, s.hub.closed, id, more);
    forall b <- r.browsers
      ensures BrowserOk(r.db, r.duds, r.tail, r.hub, b, r.browsers[b])
    {
      assert BrowserOk(s.db, s.duds, s.tail, s.hub, b, s.browsers[b]);
      CommitHold(s.db, s.duds, s.browsers[b], id, more);
      CommitRun(s.db, s.duds, s.browsers[b], id, more);
      CommitHandoff(s.db, s.tail, s.browsers[b], id);
    }
  }

  lemma NoLogYet(db: seq<nat>, duds: set<nat>, t: Tail, log: seq<nat>, closed: bool)
    requires LogOk(db, duds, t, log, closed) && t.cursor == 0
    ensures log == []
  {
    assert |log| > 0 ==> Wanted(db, duds, t.floor, t.cursor, log[0]);
  }

  lemma SeedKeeps(s: State, ok: bool)
    requires Good(s) && !s.tail.seeded
    ensures Good(s.(tail := SeedTail(s, ok)))
  {
    var r := s.(tail := SeedTail(s, ok));
    NoLogYet(s.db, s.duds, s.tail, s.hub.log, s.hub.closed);
    forall b <- r.browsers
      ensures BrowserOk(r.db, r.duds, r.tail, r.hub, b, r.browsers[b])
    {
      assert BrowserOk(s.db, s.duds, s.tail, s.hub, b, s.browsers[b]);
    }
  }

  /** The tail may change its poll in hand. */
  lemma PollKeeps(s: State)
    requires Good(s) && s.tail.seeded
    ensures Good(s.(tail := s.tail.(batch := SignalsAfterID(s.db, s.tail.cursor, TAIL_BATCH))))
  {
    SignalsAreNext(s.db, s.tail.cursor, TAIL_BATCH);
    var r := s.(tail := s.tail.(batch := SignalsAfterID(s.db, s.tail.cursor, TAIL_BATCH)));
    forall b <- r.browsers
      ensures BrowserOk(r.db, r.duds, r.tail, r.hub, b, r.browsers[b])
    {
      assert BrowserOk(s.db, s.duds, s.tail, s.hub, b, s.browsers[b]);
    }
  }

  /** The rows strictly between a position and the next id of the table: none. */
  lemma NothingBetween(db: seq<nat>, last: nat, id: nat)
    requires Sorted(db) && Rank(db, last) < |db| && id == db[Rank(db, last)]
    ensures forall d :: d in db && last < d <= id ==> d == id
  {
  }

  lemma PublishTail(db: seq<nat>, t: Tail)
    requires TailOk(db, t) && t.batch != []
    ensures TailOk(db, t.(cursor := t.batch[0], batch := t.batch[1..]))
    ensures t.batch[0] > t.cursor && t.batch[0] in db
    ensures forall d: nat :: d in db && t.cursor < d <= t.batch[0] ==> d == t.batch[0]
  {
    var k := Rank(db, t.cursor);
    assert t.batch[0] == db[k];
    RankAt(db, k);
    MaxIsMax(db, db[k]);
    NothingBetween(db, t.cursor, db[k]);
  }

  /** Moving the cursor to the next row, with the broadcast of it unless it is a dud or the hub is
      closed. */
  lemma PublishLog(db: seq<nat>, duds: set<nat>, t: Tail, log: seq<nat>, closed: bool, t': Tail, log': seq<nat>)
    requires LogOk(db, duds, t, log, closed)
    requires t'.floor == t.floor <= t.cursor < t'.cursor && t'.cursor in db
    requires forall d: nat :: d in db && t.cursor < d <= t'.cursor ==> d == t'.cursor
    requires log' == if t'.cursor in duds || closed then log else log + [t'.cursor]
    ensures LogOk(db, duds, t', log', closed)
  {
    var id := t'.cursor;
    forall d: nat | Wanted(db, duds, t.floor, id, d)
      ensures d == id || Wanted(db, duds, t.floor, t.cursor, d)
    {
    }
    forall i | 0 <= i < |log|
      ensures Wanted(db, duds, t.floor, t.cursor, log[i]) && Wanted(db, duds, t.floor, id, log[i])
    {
    }
  }

  /** A broadcast past `entry` keeps a channel linked, whether it was queued or the reader dropped. */
  lemma PublishChannel(log: seq<nat>, ch: Channel<nat>, x: Browser, id: nat, ch': Channel<nat>)
    requires ChannelLinked(log, ch, x) && id > x.entry
    requires ch' == ch || ch' == Offer(ch, id)
    ensures ChannelLinked(log + [id], ch', x)
  {
  }

  lemma PublishBrowser(db: seq<nat>, duds: set<nat>, t: Tail, t': Tail, h: HubState<ConnId, nat>, id: nat, b: nat,
                       x: Browser)
    requires BrowserOk(db, duds, t, h, b, x)
    requires t' == t.(cursor := t'.cursor, batch := t'.batch) && id == t'.cursor > t.cursor
    ensures BrowserOk(db, duds, t', if id in duds then h else Broadcast(h, id), b, x)
  {
    hide HoldOk, RunOk;
    if !x.phase.Away? {
      var c := ConnId(b, x.session);
      var h' := if id in duds then h else Broadcast(h, id);
      PublishChannel(h.log, h.chans[c], x, id, h'.chans[c]);
    }
  }

  lemma PublishKeeps(s: State)
    requires Good(s) && s.tail.batch != []
    ensures Good(PublishStep(s))
  {
    PublishTail(s.db, s.tail);
    var r := PublishStep(s);
    PublishLog(s.db, s.duds, s.tail, s.hub.log, s.hub.closed, r.tail, r.hub.log);
    var id := s.tail.batch[0];
    BroadcastKeepsInv(s.hub, id);
    hide BrowserOk, TailOk, LogOk, Inv;
    forall b <- r.browsers
      ensures BrowserOk(r.db, r.duds, r.tail, r.hub, b, r.browsers[b])
    {
      PublishBrowser(s.db, s.duds, s.tail, r.tail, s.hub, id, b, s.browsers[b]);
    }
  }

  /** A step of one browser alone. */
  lemma UpdateBrowser(s: State, b: nat, x: Browser)
    requires Good(s) && b in s.browsers && BrowserOk(s.db, s.duds, s.tail, s.hub, b, x)
    requires x.session >= s.browsers[b].session
    requires x.phase.Away? ==> ConnId(b, x.session) !in s.hub.chans
    ensures Good(s.(browsers := s.browsers[b := x]))
  {
    hide BrowserOk;
    var r := s.(browsers := s.browsers[b := x]);
    forall d <- r.browsers
      ensures BrowserOk(r.db, r.duds, r.tail, r.hub, d, r.browsers[d])
    {
      assert BrowserOk(s.db, s.duds, s.tail, s.hub, d, r.browsers[d]);
    }
  }

  /** A browser's own channel is all it needs of the hub, and whether it is open does not matter. */
  lemma SameChannel(db: seq<nat>, duds: set<nat>, t: Tail, h: HubState<ConnId, nat>, h': HubState<ConnId, nat>,
                    b: nat, x: Browser)
    requires BrowserOk(db, duds, t, h, b, x) && h'.log == h.log
    requires var c := ConnId(b, x.session);
             c in h.chans ==> c in h'.chans && h'.chans[c] == h.chans[c].(open := h'.chans[c].open)
    ensures BrowserOk(db, duds, t, h', b, x)
  {
  }

  /** A step of the hub that only closes channels. */
  lemma UpdateHub(s: State, h: HubState<ConnId, nat>)
    requires Good(s) && Inv(h)
    requires h.log == s.hub.log && (s.hub.closed ==> h.closed)
    requires h.chans.Keys == s.hub.chans.Keys
    requires forall c <- h.chans :: h.chans[c] == s.hub.chans[c].(open := h.chans[c].open)
    ensures Good(s.(hub := h))
  {
    hide BrowserOk;
    forall b <- s.browsers
      ensures BrowserOk(s.db, s.duds, s.tail, h, b, s.browsers[b])
    {
      SameChannel(s.db, s.duds, s.tail, s.hub, h, b, s.browsers[b]);
    }
  }

  lemma ConnectKeeps(s: State, b: nat)
    requires Good(s) && b in s.browsers && s.browsers[b].phase.Away? && Conn(s, b) !in s.hub.chans
    ensures Good(ConnectStep(s, b))
  {
    hide BrowserOk, LogOk, TailOk, Inv;
    var c, r := Conn(s, b), ConnectStep(s, b);
    if r != s {
      SubscribeKeepsInv(s.hub, c);
      ConnectOne(s, b, r.hub);
      TakeKeepsNew(s, b, r.hub, r.browsers[b]);
    }
  }

  lemma TakeKeepsNew(s: State, b: nat, h: HubState<ConnId, nat>, y: Browser)
    requires Good(s) && b in s.browsers && Conn(s, b) !in s.hub.chans && Inv(h)
    requires h.log == s.hub.log && h.closed == s.hub.closed
    requires h.chans.Keys == s.hub.chans.Keys + {Conn(s, b)}
    requires forall c <- s.hub.chans :: h.chans[c] == s.hub.chans[c]
    requires y.session == s.browsers[b].session && !y.phase.Away? && BrowserOk(s.db, s.duds, s.tail, h, b, y)
    ensures Good(s.(hub := h, browsers := s.browsers[b := y]))
  {
    hide BrowserOk, LogOk, TailOk, Inv;
    forall d <- s.browsers | d != b
      ensures BrowserOk(s.db, s.duds, s.tail, h, d, s.browsers[d])
    {
      SameChannel(s.db, s.duds, s.tail, s.hub, h, d, s.browsers[d]);
    }
  }

  lemma ConnectOne(s: State, b: nat, h: HubState<ConnId, nat>)
    requires Good(s) && b in s.browsers && s.browsers[b].phase.Away? && Conn(s, b) !in s.hub.chans
    requires Conn(s, b) in h.chans && h.log == s.hub.log
    requires h.chans[Conn(s, b)].since == |h.log| && h.chans[Conn(s, b)].taken == 0
    ensures BrowserOk(s.db, s.duds, s.tail, h, b, s.browsers[b].(phase := Opened, entry := s.tail.cursor))
  {
    var x := s.browsers[b];
    assert BrowserOk(s.db, s.duds, s.tail, s.hub, b, x);
    ConnectFits(s.db, s.duds, s.tail, h.log, s.hub.closed, h.chans[Conn(s, b)], x,
                x.(phase := Opened, entry := s.tail.cursor));
  }

  lemma ConnectFits(db: seq<nat>, duds: set<nat>, t: Tail, log: seq<nat>, closed: bool, ch: Channel<nat>,
                    x: Browser, y: Browser)
    requires TailOk(db, t) && LogOk(db, duds, t, log, closed) && x.phase.Away?
    requires HoldOk(db, duds, x) && RunOk(db, duds, x) && HandoffOk(db, t, x)
    requires y == x.(phase := Opened, entry := t.cursor)
    requires ch.since == |log| && ch.taken == 0
    ensures HoldOk(db, duds, y) && RunOk(db, duds, y) && HandoffOk(db, t, y) && ChannelLinked(log, ch, y)
  {
  }

  /** The writer starts at the newest id held, or where the chain is to begin. */
  lemma AimStarts(s: State, x: Browser, ok: bool)
    requires x.phase.Opened? && x.w.out == []
    ensures var y := AimBrowser(s, x, ok);
            && y.All() == x.All() == x.got && y.w.last == y.Newest() && y.leaps == x.leaps && y.entry == x.entry
            && (x.got != [] ==> y.origin == x.origin)
  {
    assert x.got + [] == x.got;
  }

  lemma AimHold(db: seq<nat>, duds: set<nat>, s: State, x: Browser, ok: bool)
    requires Sorted(db) && db == s.db && x.phase.Opened? && HoldOk(db, duds, x)
    ensures HoldOk(db, duds, AimBrowser(s, x, ok))
  {
    AimStarts(s, x, ok);
    if x.got != [] {
      assert x.All()[|x.got| - 1] in db;
      MaxIsMax(db, x.got[|x.got| - 1]);
    }
    forall i | 0 <= i < |x.got|
      ensures x.got[i] <= x.got[|x.got| - 1]
    {
      assert i < |x.got| - 1 ==> x.All()[i] < x.All()[|x.got| - 1];
    }
  }

  lemma AimRun(db: seq<nat>, duds: set<nat>, s: State, x: Browser, ok: bool)
    requires x.phase.Opened? && x.w.out == [] && RunOk(db, duds, x)
    ensures RunOk(db, duds, AimBrowser(s, x, ok))
  {
    hide Deliverable, Skips, MaxSignalID;
    AimStarts(s, x, ok);
    SkipsNothing(Deliverable(db, duds), AimBrowser(s, x, ok).w.last);
    if x.got == [] {
      EmptyChain(Deliverable(db, duds), x.origin, AimBrowser(s, x, ok).origin, x.leaps);
    }
  }

  lemma EmptyChain(d: set<nat>, origin: nat, origin': nat, leaps: set<nat>)
    requires ChainOk(d, origin, [], leaps)
    ensures ChainOk(d, origin', [], leaps)
  {
  }

  lemma AimFits(db: seq<nat>, duds: set<nat>, s: State, x: Browser, ok: bool)
    requires TailOk(db, s.tail) && db == s.db && x.phase.Opened? && HoldOk(db, duds, x) && RunOk(db, duds, x)
    ensures var y := AimBrowser(s, x, ok);
            HoldOk(db, duds, y) && RunOk(db, duds, y) && HandoffOk(db, s.tail, y)
  {
    AimHandoff(s, x, ok);
    AimHold(db, duds, s, x, ok);
    AimRun(db, duds, s, x, ok);
    hide AimBrowser, HandoffOk, RunOk;
  }

  lemma AimHandoff(s: State, x: Browser, ok: bool)
    requires TailOk(s.db, s.tail) && x.phase.Opened?
    ensures HandoffOk(s.db, s.tail, AimBrowser(s, x, ok))
  {
    RecentWindow(s.db, AimBrowser(s, x, ok).w.last);
  }

  lemma SignalsAreNext(db: seq<nat>, after: nat, limit: nat)
    ensures var rows := SignalsAfterID(db, after, limit);
            NextRows(db, after, rows) && (|rows| == limit || Rank(db, after) + |rows| == |db|)
  {
  }

  lemma ReadFits(s: State, x: Browser, ok: bool)
    requires TailOk(s.db, s.tail) && x.phase.Aimed? && HandoffOk(s.db, s.tail, x)
    ensures HandoffOk(s.db, s.tail, ReadBrowser(s, x, ok))
  {
    SignalsAreNext(s.db, x.w.last, x.Limit());
  }

  /** `entry` may move up to the tail's floor: no broadcast lies at or below it. */
  lemma ReadChannel(db: seq<nat>, duds: set<nat>, t: Tail, log: seq<nat>, closed: bool, ch: Channel<nat>,
                    x: Browser, y: Browser)
    requires LogOk(db, duds, t, log, closed) && ChannelLinked(log, ch, x) && x.phase.Aimed?
    requires y.entry == if x.entry < t.floor then t.floor else x.entry
    ensures ChannelLinked(log, ch, y)
  {
  }

  lemma AimKeeps(s: State, b: nat, ok: bool)
    requires Good(s) && b in s.browsers && s.browsers[b].phase.Opened?
    ensures BrowserOk(s.db, s.duds, s.tail, s.hub, b, AimBrowser(s, s.browsers[b], ok))
  {
    var x := s.browsers[b];
    assert BrowserOk(s.db, s.duds, s.tail, s.hub, b, x);
    AimFits(s.db, s.duds, s, x, ok);
    hide Good, HoldOk, RunOk, HandoffOk, LogOk, TailOk, Inv, MaxSignalID;
  }

  lemma ReadHolds(db: seq<nat>, duds: set<nat>, s: State, x: Browser, ok: bool)
    requires TailOk(db, s.tail) && x.phase.Aimed? && HoldOk(db, duds, x) && RunOk(db, duds, x)
    ensures HoldOk(db, duds, ReadBrowser(s, x, ok)) && RunOk(db, duds, ReadBrowser(s, x, ok))
  {
    hide ChainOk, Deliverable, Skips, Rank, SignalsAfterID;
    assert ReadBrowser(s, x, ok).All() == x.All();
  }

  lemma ReadKeeps(s: State, b: nat, ok: bool)
    requires Good(s) && b in s.browsers && s.browsers[b].phase.Aimed?
    ensures BrowserOk(s.db, s.duds, s.tail, s.hub, b, ReadBrowser(s, s.browsers[b], ok))
  {
    var x := s.browsers[b];
    var y := ReadBrowser(s, x, ok);
    assert BrowserOk(s.db, s.duds, s.tail, s.hub, b, x);
    hide HoldOk, RunOk, HandoffOk, LogOk, ChannelLinked, Rank, SignalsAfterID;
    ReadFits(s, x, ok);
    ReadHolds(s.db, s.duds, s, x, ok);
    ReadChannel(s.db, s.duds, s.tail, s.hub.log, s.hub.closed, s.hub.chans[ConnId(b, x.session)], x, y);
  }

  /** Writing id, or passing over it when it cannot be rendered, extends what a browser holds. */
  ghost predicate Extends(x: Browser, y: Browser, id: nat, dud: bool) {
    && y == x.(w := y.w, phase := y.phase, leaps := y.leaps)
    && !x.phase.Away? && !x.phase.Opened? && !y.phase.Away? && !y.phase.Opened?
    && id > x.w.last
    && y.w == (if dud then x.w.(last := id) else Writer(x.w.out + [id], id))
  }

  lemma ExtendHold(db: seq<nat>, duds: set<nat>, x: Browser, y: Browser, id: nat)
    requires Sorted(db) && HoldOk(db, duds, x) && Extends(x, y, id, id in duds) && id in db
    ensures HoldOk(db, duds, y)
  {
    MaxIsMax(db, id);
    var a, z := x.All(), y.All();
    forall i | 0 <= i < |a|
      ensures a[i] <= x.w.last
    {
      assert x.All()[i] <= x.w.last;
    }
    if id !in duds {
      assert z == a + [id];
    }
  }

  lemma ExtendRun(db: seq<nat>, duds: set<nat>, x: Browser, y: Browser, id: nat)
    requires RunOk(db, duds, x) && Extends(x, y, id, id in duds) && id in db
    requires var skips := Skips(Deliverable(db, duds), x.w.last, id);
             (id in duds ==> !skips) && y.leaps == if skips then x.leaps + {id} else x.leaps
    ensures RunOk(db, duds, y)
  {
    hide ChainOk, Skips, Deliverable;
    var d := Deliverable(db, duds);
    SkipsFrom(d, x.Newest(), x.w.last, id);
    if id in duds {
      assert y.All() == x.All();
      PassOver(d, x.Newest(), x.w.last, id);
    } else {
      assert y.All() == x.All() + [id];
      ChainExtends(d, x.origin, x.All(), x.leaps, id, y.leaps);
      SkipsNothing(d, id);
    }
  }

  lemma SkipsNothing(d: set<nat>, id: nat)
    ensures !Skips(d, id, id + 1)
  {
  }

  lemma WriteHandoff(db: seq<nat>, t: Tail, x: Browser, y: Browser)
    requires Sorted(db) && HandoffOk(db, t, x) && x.phase.Replaying? && x.phase.rows != []
    requires y == x.(w := y.w, phase := Replaying(x.phase.rows[1..])) && y.w.last == x.phase.rows[0]
    ensures HandoffOk(db, t, y)
  {
    RankAt(db, Rank(db, x.w.last));
  }

  lemma WriteFits(db: seq<nat>, duds: set<nat>, t: Tail, x: Browser, y: Browser)
    requires Sorted(db) && x.phase.Replaying? && x.phase.rows != []
    requires HoldOk(db, duds, x) && RunOk(db, duds, x) && HandoffOk(db, t, x)
    requires y.phase == Replaying(x.phase.rows[1..]) && y.leaps == x.leaps
            && Extends(x, y, x.phase.rows[0], x.phase.rows[0] in duds)
    ensures HoldOk(db, duds, y) && RunOk(db, duds, y) && HandoffOk(db, t, y)
  {
    var id := x.phase.rows[0];
    assert id == db[Rank(db, x.w.last)];
    NothingBetween(db, x.w.last, id);
    ExtendHold(db, duds, x, y, id);
    assert !Skips(Deliverable(db, duds), x.w.last, id);
    ExtendRun(db, duds, x, y, id);
    WriteHandoff(db, t, x, y);
  }

  /** The replay is over, or its write failed. */
  lemma ReplayEnds(db: seq<nat>, duds: set<nat>, t: Tail, log: seq<nat>, ch: Channel<nat>, x: Browser)
    requires x.phase.Replaying? && (x.phase.rows == [] || !x.wire)
    requires HoldOk(db, duds, x) && RunOk(db, duds, x) && HandoffOk(db, t, x) && ChannelLinked(log, ch, x)
    ensures var y := x.(phase := Live);
            HoldOk(db, duds, y) && RunOk(db, duds, y) && HandoffOk(db, t, y) && ChannelLinked(log, ch, y)
  {
  }

  lemma WriteKeeps(s: State, b: nat)
    requires Good(s) && b in s.browsers && s.browsers[b].phase.Replaying?
    ensures BrowserOk(s.db, s.duds, s.tail, s.hub, b, WriteBrowser(s, s.browsers[b]))
  {
    var x := s.browsers[b];
    assert BrowserOk(s.db, s.duds, s.tail, s.hub, b, x);
    WriteOne(s.db, s.duds, s.tail, s.hub.log, s.hub.chans[ConnId(b, x.session)], s, x);
  }

  lemma WriteOne(db: seq<nat>, duds: set<nat>, t: Tail, log: seq<nat>, ch: Channel<nat>, s: State, x: Browser)
    requires Sorted(db) && s.duds == duds && x.phase.Replaying?
    requires HoldOk(db, duds, x) && RunOk(db, duds, x) && HandoffOk(db, t, x) && ChannelLinked(log, ch, x)
    ensures var y := WriteBrowser(s, x);
            && HoldOk(db, duds, y) && RunOk(db, duds, y) && HandoffOk(db, t, y) && ChannelLinked(log, ch, y)
            && !y.phase.Away? && y.session == x.session && y.entry == x.entry
  {
    var y := WriteBrowser(s, x);
    if y.phase.Replaying? {
      RankBetween(db, x.w.last, Rank(db, x.w.last));
      WriteFits(db, duds, t, x, y);
    } else {
      ReplayEnds(db, duds, t, log, ch, x);
    }
  }

  // ---------- Taking an event off the channel ----------

  /** The next event is a deliverable signal, and taking it past the last write skips one exactly when
      one remains that the channel does not bring. */
  lemma EventIsNext(db: seq<nat>, duds: set<nat>, t: Tail, log: seq<nat>, closed: bool, ch: Channel<nat>, x: Browser)
    requires LogOk(db, duds, t, log, closed) && ChannelOk(ch, ch.open, log)
    requires ChannelLinked(log, ch, x) && x.phase.Live? && ch.taken < |ch.history|
    ensures var ev := ch.history[ch.taken];
            && Wanted(db, duds, t.floor, t.cursor, ev)
            && (Skips(Deliverable(db, duds), x.w.last, ev) <==> Remains(Deliverable(db, duds), t, x))
  {
    hide Skips, Deliverable;
    var p := ch.since + ch.taken;
    var ev := log[p];
    assert Wanted(db, duds, t.floor, t.cursor, ev) && ev > x.entry;
    forall j | ch.since <= j < p
      ensures log[j] <= x.w.last
    {
      assert ch.history[j - ch.since] <= x.w.last;
    }
    forall d <- Deliverable(db, duds) | x.w.last < d < ev
      ensures d <= HandOver(t, x)
    {
      ChannelBringsIt(db, duds, t, log, closed, ch, x, p, d);
    }
    SkipsEarlier(Deliverable(db, duds), x.w.last, HandOver(t, x) + 1, ev);
  }

  lemma SkipsEarlier(d: set<nat>, lo: nat, mid: nat, hi: nat)
    requires mid <= hi && forall x <- d | lo < x < hi :: x < mid
    ensures Skips(d, lo, hi) <==> Skips(d, lo, mid)
  {
    if Skips(d, lo, hi) {
      var x :| x in d && lo < x < hi;
      assert lo < x < mid;
    }
    if Skips(d, lo, mid) {
      var x :| x in d && lo < x < mid;
      assert lo < x < hi;
    }
  }

  /** A deliverable signal past the hand-over and before broadcast p is an earlier broadcast of the channel. */
  lemma ChannelBringsIt(db: seq<nat>, duds: set<nat>, t: Tail, log: seq<nat>, closed: bool, ch: Channel<nat>,
                        x: Browser, p: nat, d: nat)
    requires LogOk(db, duds, t, log, closed) && ChannelLinked(log, ch, x) && ch.since <= p < |log|
    requires forall j | ch.since <= j < p :: log[j] <= x.w.last
    requires d in db && d !in duds && x.w.last < d < log[p]
    ensures d <= HandOver(t, x)
  {
    if d > t.floor {
      assert Wanted(db, duds, t.floor, log[p], d);
      EarlierBroadcast(log, ch.since, p, x.w.last, x.entry, d);
    }
  }

  /** A broadcast before p that is past the last write came before the subscription. */
  lemma EarlierBroadcast(log: seq<nat>, since: nat, p: nat, last: nat, entry: nat, d: nat)
    requires Sorted(log) && since <= p < |log| && d in log && last < d < log[p]
    requires forall j | since <= j < p :: log[j] <= last
    requires forall i | 0 <= i < since :: log[i] <= entry
    ensures d <= entry
  {
    var j :| 0 <= j < |log| && log[j] == d;
  }

  lemma TakenChannel(log: seq<nat>, ch: Channel<nat>, x: Browser, y: Browser)
    requires ChannelLinked(log, ch, x) && x.phase.Live? && ch.taken < |ch.history|
    requires y.phase.Live? || y.phase.Done?
    requires y.entry == x.entry && y.w.last >= x.w.last
    requires y.phase.Live? ==> ch.history[ch.taken] <= y.w.last
    ensures ChannelLinked(log, ch.(taken := ch.taken + 1), y)
  {
  }

  lemma LiveHandoff(db: seq<nat>, t: Tail, x: Browser, y: Browser)
    requires HandoffOk(db, t, x) && x.phase.Live? && (y.phase.Live? || y.phase.Done?)
    requires y == x.(w := y.w, phase := y.phase, leaps := y.leaps) && y.w.last >= x.w.last
    ensures HandoffOk(db, t, y)
  {
  }

  /** The event is written. */
  lemma WrittenFits(db: seq<nat>, duds: set<nat>, t: Tail, log: seq<nat>, closed: bool, ch: Channel<nat>, x: Browser)
    requires Sorted(db) && LogOk(db, duds, t, log, closed) && ChannelOk(ch, ch.open, log)
    requires HoldOk(db, duds, x) && RunOk(db, duds, x) && ChannelLinked(log, ch, x)
    requires x.phase.Live? && ch.taken < |ch.history| && ch.history[ch.taken] > x.w.last && x.wire
    ensures var y := DeliverBrowser(Deliverable(db, duds), t, x, ch.history[ch.taken]);
            HoldOk(db, duds, y) && RunOk(db, duds, y)
  {
    var ev := ch.history[ch.taken];
    var y := DeliverBrowser(Deliverable(db, duds), t, x, ev);
    EventIsNext(db, duds, t, log, closed, ch, x);
    hide HoldOk, RunOk, Deliverable, Skips, LogOk, ChannelOk, ChannelLinked, Sorted;
    ExtendHold(db, duds, x, y, ev);
    ExtendRun(db, duds, x, y, ev);
  }

  /** The event is passed over, or its write fails and the stream ends. */
  lemma UnwrittenFits(db: seq<nat>, duds: set<nat>, t: Tail, x: Browser, ev: nat)
    requires HoldOk(db, duds, x) && RunOk(db, duds, x) && x.phase.Live? && (ev <= x.w.last || !x.wire)
    ensures var y := DeliverBrowser(Deliverable(db, duds), t, x, ev); HoldOk(db, duds, y) && RunOk(db, duds, y)
  {
  }

  lemma DeliverFits(db: seq<nat>, duds: set<nat>, t: Tail, log: seq<nat>, closed: bool, ch: Channel<nat>, x: Browser)
    requires TailOk(db, t) && LogOk(db, duds, t, log, closed) && ChannelOk(ch, ch.open, log)
    requires HoldOk(db, duds, x) && RunOk(db, duds, x) && HandoffOk(db, t, x) && ChannelLinked(log, ch, x)
    requires x.phase.Live? && ch.taken < |ch.history|
    ensures var y := DeliverBrowser(Deliverable(db, duds), t, x, ch.history[ch.taken]);
            && HoldOk(db, duds, y) && RunOk(db, duds, y) && HandoffOk(db, t, y)
            && ChannelLinked(log, ch.(taken := ch.taken + 1), y)
  {
    hide HoldOk, RunOk, Deliverable, LogOk, ChannelOk, HandoffOk, ChannelLinked, Remains;
    var ev := ch.history[ch.taken];
    TakenChannel(log, ch, x, DeliverBrowser(Deliverable(db, duds), t, x, ev));
    LiveHandoff(db, t, x, DeliverBrowser(Deliverable(db, duds), t, x, ev));
    if ev > x.w.last && x.wire {
      WrittenFits(db, duds, t, log, closed, ch, x);
    } else {
      UnwrittenFits(db, duds, t, x, ev);
    }
  }

  lemma DeliverBrowserStays(s: State, b: nat)
    requires b in s.browsers && s.browsers[b].phase.Live?
    ensures forall ev ::
              var y := DeliverBrowser(Deliverable(s.db, s.duds), s.tail, s.browsers[b], ev);
              y.session == s.browsers[b].session && !y.phase.Away?
  {
  }

  lemma DeliverKeeps(s: State, b: nat)
    requires Good(s) && b in s.browsers && s.browsers[b].phase.Live? && Conn(s, b) in s.hub.chans
    ensures Good(DeliverStep(s, b))
  {
    hide BrowserOk, LogOk, TailOk, ChannelOk, Deliverable, DeliverBrowser;
    var c := Conn(s, b);
    var x, ch := s.browsers[b], s.hub.chans[c];
    DeliverOne(s, b);
    DeliverBrowserStays(s, b);
    if ch.taken < |ch.history| {
      var h, y := Receive(s.hub, c), DeliverBrowser(Deliverable(s.db, s.duds), s.tail, x, ch.history[ch.taken]);
      ReceiveKeepsInv(s.hub, c);
      TakeKeeps(s, b, h, y);
      StopKeeps(s.(hub := h, browsers := s.browsers[b := y]), c);
    } else if !ch.open {
      UpdateBrowser(s, b, x.(phase := Done));
    }
  }

  lemma StopKeeps(s: State, c: ConnId)
    requires Good(s)
    ensures Good(s.(hub := Unsubscribe(s.hub, c)))
  {
    hide BrowserOk, LogOk, TailOk;
    UnsubscribeKeepsInv(s.hub, c);
    UpdateHub(s, Unsubscribe(s.hub, c));
  }

  lemma DeliverOne(s: State, b: nat)
    requires Good(s) && b in s.browsers && s.browsers[b].phase.Live? && Conn(s, b) in s.hub.chans
    ensures var x, ch := s.browsers[b], s.hub.chans[Conn(s, b)];
            if ch.taken < |ch.history| then
              BrowserOk(s.db, s.duds, s.tail, Receive(s.hub, Conn(s, b)), b,
                DeliverBrowser(Deliverable(s.db, s.duds), s.tail, x, ch.history[ch.taken]))
            else
              BrowserOk(s.db, s.duds, s.tail, s.hub, b, x.(phase := Done))
  {
    hide RunOk, HoldOk, HandoffOk, LogOk, TailOk, ChannelLinked, Deliverable, Remains;
    var x, ch := s.browsers[b], s.hub.chans[Conn(s, b)];
    assert BrowserOk(s.db, s.duds, s.tail, s.hub, b, x);
    assert ChannelOk(ch, Conn(s, b) in s.hub.clients, s.hub.log);
    if ch.taken < |ch.history| {
      DeliverFits(s.db, s.duds, s.tail, s.hub.log, s.hub.closed, ch, x);
    } else {
      DoneFits(s.db, s.duds, s.tail, s.hub.log, ch, x);
    }
  }

  /** A step that changes one browser and only its own channel. */
  lemma TakeKeeps(s: State, b: nat, h: HubState<ConnId, nat>, y: Browser)
    requires Good(s) && b in s.browsers && Conn(s, b) in s.hub.chans && Inv(h)
    requires h == s.hub.(chans := h.chans) && h.chans.Keys == s.hub.chans.Keys
    requires forall c <- h.chans :: c != Conn(s, b) ==> h.chans[c] == s.hub.chans[c]
    requires y.session == s.browsers[b].session && !y.phase.Away? && BrowserOk(s.db, s.duds, s.tail, h, b, y)
    ensures Good(s.(hub := h, browsers := s.browsers[b := y]))
  {
    hide BrowserOk;
    forall d <- s.browsers | d != b
      ensures BrowserOk(s.db, s.duds, s.tail, h, d, s.browsers[d])
    {
      SameChannel(s.db, s.duds, s.tail, s.hub, h, d, s.browsers[d]);
    }
  }

  lemma DoneFits(db: seq<nat>, duds: set<nat>, t: Tail, log: seq<nat>, ch: Channel<nat>, x: Browser)
    requires x.phase.Live?
    requires HoldOk(db, duds, x) && RunOk(db, duds, x) && HandoffOk(db, t, x) && ChannelLinked(log, ch, x)
    ensures var y := x.(phase := Done);
            HoldOk(db, duds, y) && RunOk(db, duds, y) && HandoffOk(db, t, y) && ChannelLinked(log, ch, y)
  {
  }

  lemma BreakFits(db: seq<nat>, duds: set<nat>, t: Tail, h: HubState<ConnId, nat>, b: nat, x: Browser)
    requires BrowserOk(db, duds, t, h, b, x)
    ensures BrowserOk(db, duds, t, h, b, x.(wire := false))
  {
  }

  /** The browser keeps what had reached it when the connection ended: a prefix of what was written. */
  lemma HangupFits(db: seq<nat>, duds: set<nat>, t: Tail, x: Browser, k: nat)
    requires HoldOk(db, duds, x) && RunOk(db, duds, x) && !x.phase.Away? && k <= |x.w.out|
    ensures var y := HangupBrowser(x, k); HoldOk(db, duds, y) && RunOk(db, duds, y) && HandoffOk(db, t, y)
  {
    var y := HangupBrowser(x, k);
    assert y.All() == x.All()[..|x.got| + k];
    ChainPrefix(Deliverable(db, duds), x.origin, x.All(), x.leaps, |x.got| + k);
  }

  lemma HangupKeeps(s: State, b: nat, k: nat)
    requires Good(s) && b in s.browsers && !s.browsers[b].phase.Away? && k <= |s.browsers[b].w.out|
    ensures Good(s.(browsers := s.browsers[b := HangupBrowser(s.browsers[b], k)]))
  {
    assert BrowserOk(s.db, s.duds, s.tail, s.hub, b, s.browsers[b]);
    HangupFits(s.db, s.duds, s.tail, s.browsers[b], k);
    UpdateBrowser(s, b, HangupBrowser(s.browsers[b], k));
  }

  lemma BrowserStepsKeep(s: State, a: Action)
    requires Good(s) && Enabled(s, a)
    requires a.Aim? || a.ReadReplay? || a.WriteReplay? || a.BreakWire?
    ensures Good(Step(s, a))
  {
    hide BrowserOk, LogOk, TailOk, ChannelOk;
    assert BrowserOk(s.db, s.duds, s.tail, s.hub, a.b, s.browsers[a.b]);
    match a
    case Aim(b, ok) => AimKeeps(s, b, ok); UpdateBrowser(s, b, AimBrowser(s, s.browsers[b], ok));
    case ReadReplay(b, ok) => ReadKeeps(s, b, ok); UpdateBrowser(s, b, ReadBrowser(s, s.browsers[b], ok));
    case WriteReplay(b) => WriteKeeps(s, b); UpdateBrowser(s, b, WriteBrowser(s, s.browsers[b]));
    case BreakWire(b) =>
      BreakFits(s.db, s.duds, s.tail, s.hub, b, s.browsers[b]);
      UpdateBrowser(s, b, s.browsers[b].(wire := false));
  }

  lemma StepKeepsGood(s: State, a: Action)
    requires Good(s) && Enabled(s, a)
    ensures Good(Step(s, a))
  {
    hide BrowserOk, LogOk, TailOk, ChannelOk;
    match a
    case Commit(id, dud) => CommitKeeps(s, id, dud);
    case Seed(ok) => SeedKeeps(s, ok);
    case Poll(ok) => PollKeeps(s);
    case PublishNext => PublishKeeps(s);
    case Connect(b) => ConnectKeeps(s, b);
    case Deliver(b) => DeliverKeeps(s, b);
    case Hangup(b, k) => HangupKeeps(s, b, k);
    case Reap(c) => StopKeeps(s, c);
    case ServerClose => CloseKeepsInv(s.hub); UpdateHub(s, Close(s.hub));
    case _ => BrowserStepsKeep(s, a);
  }

  // ---------- Every run ----------

  /** A run: each action is taken if it can be. */
  function Run(s: State, acts: seq<Action>): State
    decreases |acts|
  {
    if acts == [] then s else Run(if Enabled(s, acts[0]) then Step(s, acts[0]) else s, acts[1..])
  }

  lemma {:induction false} RunKeepsGood(s: State, acts: seq<Action>)
    requires Good(s)
    ensures Good(Run(s, acts))
    decreases |acts|
  {
    if acts != [] {
      if Enabled(s, acts[0]) {
        StepKeepsGood(s, acts[0]);
      }
      RunKeepsGood(if Enabled(s, acts[0]) then Step(s, acts[0]) else s, acts[1..]);
    }
  }

  lemma FreshOk(b: nat)
    ensures BrowserOk([], {}, Tail(false, 0, 0, []), Empty(), b, Fresh([], 0, {}, 0))
  {
    var x := Fresh([], 0, {}, 0);
    assert x.All() == [];
  }

  lemma InitGood(names: set<nat>)
    ensures Good(Init(names))
  {
    hide BrowserOk;
    forall b <- names
      ensures BrowserOk([], {}, Tail(false, 0, 0, []), Empty(), b, Fresh([], 0, {}, 0))
    {
      FreshOk(b);
    }
  }

  /** In every interleaving, over all of a browser's sessions, the ids it has been sent strictly
      increase and are committed signals. */
  lemma FeedIncreases(names: set<nat>, acts: seq<Action>, b: nat)
    requires b in names
    ensures var s := Run(Init(names), acts);
            b in s.browsers ==>
              var all := s.browsers[b].got + s.browsers[b].w.out;
              Sorted(all) && forall id <- all :: id in s.db && id !in s.duds
  {
    InitGood(names);
    RunKeepsGood(Init(names), acts);
    var s := Run(Init(names), acts);
    if b in s.browsers {
      assert BrowserOk(s.db, s.duds, s.tail, s.hub, b, s.browsers[b]);
      var all := s.browsers[b].All();
      forall id <- all
        ensures id in s.db && id !in s.duds
      {
        var i :| 0 <= i < |all| && all[i] == id;
      }
    }
  }

  /** And over any number of drops and reconnects they are a contiguous run of the deliverable signals exactly when
      no id it holds was taken off the channel while a signal remained that only a replay could have sent. */
  lemma FeedHasNoGapsIff(names: set<nat>, acts: seq<Action>, b: nat)
    ensures var s := Run(Init(names), acts);
            b in s.browsers ==>
              var x := s.browsers[b];
              x.leaps == {} <==>
                forall id: nat :: id in x.got + x.w.out <==> id in s.db && id !in s.duds && x.origin < id <= x.Newest()
  {
    hide Run, ChainOk, Whole, Deliverable, HandoffOk, HoldOk;
    InitGood(names);
    RunKeepsGood(Init(names), acts);
    var s := Run(Init(names), acts);
    if b in s.browsers {
      var x := s.browsers[b];
      assert BrowserOk(s.db, s.duds, s.tail, s.hub, b, x);
      ChainIsWholeIff(Deliverable(s.db, s.duds), x.origin, x.All(), x.leaps);
      WholeIs(s.db, s.duds, x);
    }
  }

  lemma WholeIs(db: seq<nat>, duds: set<nat>, x: Browser)
    ensures Whole(Deliverable(db, duds), x.origin, x.All()) <==>
              forall id: nat :: id in x.got + x.w.out <==> id in db && id !in duds && x.origin < id <= x.Newest()
  {
  }

  // ---------- When a delivery skips a signal ----------

  /** Taking the next event off the channel skips a deliverable signal exactly when one lies between the last write
      and the hand-over, which is the later of the tail's cursor at the subscription and the tail's seed. */
  lemma DeliverySkipsIff(names: set<nat>, acts: seq<Action>, b: nat)
    ensures var s := Run(Init(names), acts);
            b in s.browsers && s.browsers[b].phase.Live? && Conn(s, b) in s.hub.chans ==>
              var x, ch := s.browsers[b], s.hub.chans[Conn(s, b)];
              ch.taken < |ch.history| ==>
                var ev := ch.history[ch.taken];
                && ev in s.db && ev !in s.duds
                && (Skips(Deliverable(s.db, s.duds), x.w.last, ev) <==> Remains(Deliverable(s.db, s.duds), s.tail, x))
  {
    hide Run, ChainOk, Skips, Deliverable, HandoffOk, HoldOk;
    InitGood(names);
    RunKeepsGood(Init(names), acts);
    var s := Run(Init(names), acts);
    if b in s.browsers && s.browsers[b].phase.Live? && Conn(s, b) in s.hub.chans {
      var x, ch := s.browsers[b], s.hub.chans[Conn(s, b)];
      assert BrowserOk(s.db, s.duds, s.tail, s.hub, b, x);
      assert ChannelOk(ch, Conn(s, b) in s.hub.clients, s.hub.log);
      if ch.taken < |ch.history| {
        EventIsNext(s.db, s.duds, s.tail, s.hub.log, s.hub.closed, ch, x);
      }
    }
  }

  /** So a client that subscribed and replayed before the tail was seeded loses a signal exactly when a deliverable one
      it has not been sent is no newer than the id the tail was seeded at. */
  lemma LateSeedLosesIff(names: set<nat>, acts: seq<Action>, b: nat)
    ensures var s := Run(Init(names), acts);
            b in s.browsers && s.browsers[b].phase.Live? && Conn(s, b) in s.hub.chans ==>
              var x, ch := s.browsers[b], s.hub.chans[Conn(s, b)];
              ch.taken < |ch.history| && x.entry < s.tail.floor ==>
                var ev := ch.history[ch.taken];
                (exists id <- s.db :: id !in s.duds && x.w.last < id < ev)
                <==> exists id <- s.db :: id !in s.duds && x.w.last < id <= s.tail.floor
  {
    hide Run, Deliverable, Skips;
    DeliverySkipsIff(names, acts, b);
    var s := Run(Init(names), acts);
    if b in s.browsers && s.browsers[b].phase.Live? && Conn(s, b) in s.hub.chans {
      var x, ch := s.browsers[b], s.hub.chans[Conn(s, b)];
      if ch.taken < |ch.history| {
        SkipsIs(s.db, s.duds, x.w.last, ch.history[ch.taken]);
        SkipsIs(s.db, s.duds, x.w.last, s.tail.floor + 1);
      }
    }
  }

  lemma SkipsIs(db: seq<nat>, duds: set<nat>, lo: nat, hi: nat)
    ensures Skips(Deliverable(db, duds), lo, hi) <==> exists id <- db :: id !in duds && lo < id < hi
  {
    if Skips(Deliverable(db, duds), lo, hi) {
      var d :| d in Deliverable(db, duds) && lo < d < hi;
      assert d in db && d !in duds;
    }
    if exists id <- db :: id !in duds && lo < id < hi {
      var d :| d in db && d !in duds && lo < d < hi;
      assert d in Deliverable(db, duds);
    }
  }

  /** A covered session that can still write never leaps: by the time it streams, nothing remains. */
  lemma CoveredNeverLeaps(names: set<nat>, acts: seq<Action>, b: nat)
    ensures var s := Run(Init(names), acts);
            b in s.browsers ==>
              var x := s.browsers[b];
              x.covered && x.wire && x.phase.Live? ==> !Remains(Deliverable(s.db, s.duds), s.tail, x)
  {
    hide Run, ChainOk, RunOk, HoldOk, Deliverable;
    InitGood(names);
    RunKeepsGood(Init(names), acts);
    var s := Run(Init(names), acts);
    if b in s.browsers {
      var x := s.browsers[b];
      assert BrowserOk(s.db, s.duds, s.tail, s.hub, b, x);
      if x.covered && x.wire && x.phase.Live? {
        NothingRemains(s.db, x.w.last, x.entry);
      }
    }
  }

  lemma NothingRemains(db: seq<nat>, last: nat, entry: nat)
    requires Sorted(db) && Rank(db, entry) <= Rank(db, last)
    ensures forall id <- db :: last < id ==> id > entry
  {
    forall id <- db | last < id
      ensures id > entry
    {
      var i :| 0 <= i < |db| && db[i] == id;
      RankBetween(db, last, i);
      RankBetween(db, entry, i);
    }
  }

  /** A first connection whose MAX(id) read succeeded against a seeded tail is covered once its replay
      read succeeds: 20 rows reach back far enough. */
  lemma FirstConnectionIsCovered(names: set<nat>, acts: seq<Action>, b: nat)
    ensures var s := Run(Init(names), acts);
            b in s.browsers && s.browsers[b].phase.Aimed? && s.browsers[b].recent ==>
              ReadBrowser(s, s.browsers[b], true).covered
  {
    InitGood(names);
    RunKeepsGood(Init(names), acts);
    var s := Run(Init(names), acts);
    if b in s.browsers && s.browsers[b].phase.Aimed? && s.browsers[b].recent {
      RecentIsCovered(s, b);
    }
  }

  /** What covering asks: a read that succeeded with the tail seeded, whose rows include every signal between the
      client's last id and the hand-over. */
  lemma CoveredIffReplayReaches(s: State, x: Browser, ok: bool)
    requires Sorted(s.db) && x.phase.Aimed?
    ensures var y := ReadBrowser(s, x, ok);
            y.covered <==> ok && s.tail.seeded && forall id <- s.db :: x.w.last < id <= y.entry ==> id in y.phase.rows
  {
    ReplayReaches(s.db, x.w.last, ReadBrowser(s, x, ok).entry, x.Limit());
  }

  lemma RecentIsCovered(s: State, b: nat)
    requires Good(s) && b in s.browsers && s.browsers[b].phase.Aimed? && s.browsers[b].recent
    ensures ReadBrowser(s, s.browsers[b], true).covered
  {
    hide RunOk, HoldOk, ChannelLinked, TailOk, LogOk, Inv;
    assert BrowserOk(s.db, s.duds, s.tail, s.hub, b, s.browsers[b]);
  }

  // ---------- A feed that is looked after ----------

  /** A replay read of this browser succeeds. The first one follows a successful MAX(id) read against a seeded tail; on
      any other the tail is seeded, and at most the replay limit of rows, 500 on a reconnect, lies between the client's
      last id and the hand-over. Other steps are free. */
  ghost predicate ReadIsGood(s: State, a: Action, b: nat) {
    a.ReadReplay? && a.b == b && Enabled(s, a) ==>
      var x := s.browsers[b];
      a.ok && (x.recent || (s.tail.seeded && Rank(s.db, HandOver(s.tail, x)) <= Rank(s.db, x.w.last) + x.Limit()))
  }

  ghost predicate Careful(s: State, acts: seq<Action>, b: nat)
    decreases |acts|
  {
    acts != [] ==>
      ReadIsGood(s, acts[0], b) && Careful(if Enabled(s, acts[0]) then Step(s, acts[0]) else s, acts[1..], b)
  }

  /** The browser has leapt nowhere, and the session it is in is covered. */
  predicate Unbroken(x: Browser) {
    x.leaps == {} && (x.phase.Replaying? || x.phase.Live? ==> x.covered)
  }

  lemma UnbrokenEvent(d: set<nat>, t: Tail, x: Browser, ev: nat)
    requires x.phase.Live? && Unbroken(x) && (x.wire ==> !Remains(d, t, x))
    ensures Unbroken(DeliverBrowser(d, t, x, ev))
  {
    hide Remains;
  }

  lemma CoveredRemains(db: seq<nat>, duds: set<nat>, t: Tail, x: Browser)
    requires Sorted(db) && HandoffOk(db, t, x) && x.covered && x.wire && x.phase.Live?
    ensures !Remains(Deliverable(db, duds), t, x)
  {
    hide Rank;
    NothingRemains(db, x.w.last, x.entry);
  }

  lemma UnbrokenDelivery(s: State, b: nat)
    requires Good(s) && b in s.browsers && s.browsers[b].phase.Live? && Unbroken(s.browsers[b])
    requires Conn(s, b) in s.hub.chans
    ensures b in DeliverStep(s, b).browsers && Unbroken(DeliverStep(s, b).browsers[b])
  {
    var x, d := s.browsers[b], Deliverable(s.db, s.duds);
    assert BrowserOk(s.db, s.duds, s.tail, s.hub, b, x);
    hide Good, BrowserOk, HoldOk, RunOk, Deliverable, Remains, DeliverBrowser;
    if x.wire {
      hide HandoffOk;
      CoveredRemains(s.db, s.duds, s.tail, x);
    }
    forall ev: nat
      ensures Unbroken(DeliverBrowser(d, s.tail, x, ev))
    {
      UnbrokenEvent(d, s.tail, x, ev);
    }
  }

  lemma UnbrokenRead(s: State, b: nat, ok: bool)
    requires Good(s) && b in s.browsers && Unbroken(s.browsers[b]) && Enabled(s, ReadReplay(b, ok))
    requires ReadIsGood(s, ReadReplay(b, ok), b)
    ensures Unbroken(ReadBrowser(s, s.browsers[b], ok))
  {
    if s.browsers[b].recent {
      RecentIsCovered(s, b);
    }
    hide Good;
  }

  lemma UnbrokenWrite(s: State, x: Browser)
    requires x.phase.Replaying? && Unbroken(x)
    ensures Unbroken(WriteBrowser(s, x))
  {
  }

  lemma UnbrokenHangup(x: Browser, k: nat)
    requires k <= |x.w.out| && Unbroken(x)
    ensures Unbroken(HangupBrowser(x, k))
  {
  }

  lemma UnbrokenStep(s: State, a: Action, b: nat)
    requires Good(s) && b in s.browsers && Unbroken(s.browsers[b]) && Enabled(s, a) && ReadIsGood(s, a, b)
    ensures b in Step(s, a).browsers && Unbroken(Step(s, a).browsers[b])
  {
    hide Good, Deliverable, MaxSignalID, SignalsAfterID, Broadcast, Close, Unsubscribe, Subscribe, Receive, SeedTail,
         ReadBrowser, WriteBrowser, HangupBrowser, DeliverBrowser, ReadIsGood;
    match a
    case ReadReplay(c, ok) =>
      if c == b {
        UnbrokenRead(s, b, ok);
      }
    case WriteReplay(c) =>
      if c == b {
        UnbrokenWrite(s, s.browsers[b]);
      }
    case Hangup(c, k) =>
      if c == b {
        UnbrokenHangup(s.browsers[b], k);
      }
    case Deliver(c) =>
      if c == b {
        UnbrokenDelivery(s, b);
      }
    case _ =>
  }

  lemma {:induction false} UnbrokenRun(s: State, acts: seq<Action>, b: nat)
    requires Good(s) && b in s.browsers && Unbroken(s.browsers[b]) && Careful(s, acts, b)
    ensures b in Run(s, acts).browsers && Unbroken(Run(s, acts).browsers[b])
    decreases |acts|
  {
    hide Good, Step, Enabled, Unbroken, ReadIsGood;
    if acts != [] {
      if Enabled(s, acts[0]) {
        StepKeepsGood(s, acts[0]);
        UnbrokenStep(s, acts[0], b);
      }
      UnbrokenRun(if Enabled(s, acts[0]) then Step(s, acts[0]) else s, acts[1..], b);
    }
  }

  /** In every interleaving in which a browser's replay reads are good, over any number of drops and Last-Event-ID
      reconnects, what it has been sent is a contiguous run of the deliverable signals. */
  lemma CarefulFeedHasNoGaps(names: set<nat>, acts: seq<Action>, b: nat)
    requires b in names && Careful(Init(names), acts, b)
    ensures b in Run(Init(names), acts).browsers
    ensures var s := Run(Init(names), acts); var x := s.browsers[b];
            forall id: nat ::
              id in x.got + x.w.out <==> id in s.db && id !in s.duds && x.origin < id <= x.Newest()
  {
    hide Good, Run, Careful;
    InitGood(names);
    UnbrokenRun(Init(names), acts, b);
    FeedHasNoGapsIff(names, acts, b);
  }

  /** A failed MAX(id) read does not skip the replay: it replays the oldest signals. */
  lemma FailedMaxReplaysOldest(s: State, x: Browser)
    requires Sorted(s.db) && (forall i | 0 <= i < |s.db| :: s.db[i] > 0) && x.got == []
    ensures var y := ReadBrowser(s, AimBrowser(s, x, false), true);
            y.phase == Replaying(if |s.db| <= 20 then s.db else s.db[..20])
  {
  }

  lemma RunCons(s: State, a: Action, t: State, rest: seq<Action>)
    requires Enabled(s, a) && t == Step(s, a)
    ensures Run(s, [a] + rest) == Run(t, rest)
  {
  }

  /** A run in which every read succeeds, but the tail seeds itself only after a client has replayed. */
  const SEED_RACE: seq<Action> :=
    [Connect(0), Aim(0, true), ReadReplay(0, true), WriteReplay(0), Commit(1, false),
     Seed(true), Commit(2, false), Poll(true), PublishNext, Deliver(0)]

  /** The states it passes through. */
  function RaceState(i: nat): State {
    var c := ConnId(0, 0);
    var b0 := Fresh([], 0, {}, 0);
    var b1 := b0.(phase := Opened);
    var b3 := b1.(phase := Replaying([]));
    var b4 := b3.(phase := Live);
    var h := (log: seq<nat>, taken: nat) => HubState({c}, map[c := Channel(log, taken, 0, true)], false, log);
    var t0 := Tail(false, 0, 0, []);
    match i
    case 0 => Init({0})
    case 1 => State([], {}, t0, h([], 0), map[0 := b1])
    case 2 => State([], {}, t0, h([], 0), map[0 := b1.(phase := Aimed)])
    case 3 => State([], {}, t0, h([], 0), map[0 := b3])
    case 4 => State([], {}, t0, h([], 0), map[0 := b4])
    case 5 => State([1], {}, t0, h([], 0), map[0 := b4])
    case 6 => State([1], {}, Tail(true, 1, 1, []), h([], 0), map[0 := b4])
    case 7 => State([1, 2], {}, Tail(true, 1, 1, []), h([], 0), map[0 := b4])
    case 8 => State([1, 2], {}, Tail(true, 1, 1, [2]), h([], 0), map[0 := b4])
    case 9 => State([1, 2], {}, Tail(true, 1, 2, []), h([2], 0), map[0 := b4])
    case _ => State([1, 2], {}, Tail(true, 1, 2, []), h([2], 1), map[0 := b4.(w := Writer([2], 2), leaps := {2})])
  }

  ghost predicate Follows(i: nat, a: Action) {
    Enabled(RaceState(i), a) && RaceState(i + 1) == Step(RaceState(i), a)
  }

  lemma RaceConnects()
    ensures Follows(0, Connect(0)) && Follows(1, Aim(0, true))
  {
  }

  lemma RaceReplays()
    ensures Follows(2, ReadReplay(0, true)) && Follows(3, WriteReplay(0)) && Follows(4, Commit(1, false))
  {
  }

  lemma RaceSeeds()
    ensures Follows(5, Seed(true)) && Follows(6, Commit(2, false))
  {
    assert [1] + [2] == [1, 2];
  }

  lemma RaceRow()
    ensures SignalsAfterID([1, 2], 1, TAIL_BATCH) == [2]
  {
  }

  lemma RacePolls()
    ensures Follows(7, Poll(true))
  {
    hide SignalsAfterID, Rank;
    RaceRow();
  }

  lemma RacePublishes()
    ensures Follows(8, PublishNext)
  {
    var h := RaceState(8).hub;
    var r := Broadcast(h, 2);
    assert [] + [2] == [2];
    assert r.clients == h.clients;
    assert r.chans == RaceState(9).hub.chans;
    assert [2][1..] == [];
  }

  lemma RaceDelivers()
    ensures Follows(9, Deliver(0))
  {
    var s := RaceState(9);
    var c := ConnId(0, 0);
    assert Receive(s.hub, c).chans == RaceState(10).hub.chans;
    var y := DeliverBrowser(Deliverable(s.db, s.duds), s.tail, s.browsers[0], 2);
    assert [] + [2] == [2];
    assert 1 in Deliverable(s.db, s.duds) && 0 < 1 < HandOver(s.tail, s.browsers[0]) + 1;
    assert {} + {2} == {2};
    assert s.browsers[0 := y] == RaceState(10).browsers;
  }

  lemma FollowsIs(i: nat, a: Action)
    requires Follows(i, a)
    ensures Enabled(RaceState(i), a) && RaceState(i + 1) == Step(RaceState(i), a)
  {
  }

  lemma RaceFollows(i: nat)
    requires i < 10
    ensures Follows(i, SEED_RACE[i])
  {
    hide Follows;
    RaceConnects();
    RaceReplays();
    RaceSeeds();
    RacePolls();
    RacePublishes();
    RaceDelivers();
  }

  lemma {:induction false} RunAlong(i: nat)
    requires i <= 10
    ensures Run(RaceState(i), SEED_RACE[i..]) == RaceState(10)
    decreases 10 - i
  {
    hide RaceState;
    if i < 10 {
      var a, rest := SEED_RACE[i], SEED_RACE[i + 1..];
      assert SEED_RACE[i..] == [a] + rest;
      RaceFollows(i);
      FollowsIs(i, a);
      RunCons(RaceState(i), a, RaceState(i + 1), rest);
      RunAlong(i + 1);
    }
  }

  /** Why the tail must be seeded before a replay is read: signal 1, committed between the two, is
      never sent, though 2 is. */
  lemma SeedRaceLosesASignal()
    ensures var s := Run(Init({0}), SEED_RACE);
            0 in s.browsers && s.db == [1, 2] && s.duds == {}
            && s.browsers[0].origin == 0 && s.browsers[0].w.out == [2] && s.browsers[0].leaps == {2}
  {
    hide Run;
    RunAlong(0);
    assert SEED_RACE[0..] == SEED_RACE;
  }
}
