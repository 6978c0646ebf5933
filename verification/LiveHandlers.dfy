/** The three loops of the live feed in the source's own form, each proved against the per-row steps of
    the protocol: `replaySignals` and the streaming loop (internal/api/sse.go), and the tail's loop
    over one poll (internal/api/server.go). Which writes succeed is an input. */
module LiveHandlers {
  import opened LiveHub
  import opened IdChains
  import opened LiveFeed

  /** The protocol's replay steps, one after another, until a write fails. */
  function ReplayAll(w: Writer, rows: seq<nat>, duds: set<nat>, wire: seq<bool>): (Writer, bool)
    requires |wire| == |rows|
    decreases |rows|
  {
    if rows == [] then (w, true) else
      var (w1, ok) := ReplayRow(w, rows[0], rows[0] in duds, wire[0]);
      if ok then ReplayAll(w1, rows[1..], duds, wire[1..]) else (w1, false)
  }

  /** The protocol's deliveries, one after another, until a write fails. */
  function StreamAll(w: Writer, events: seq<nat>, wire: seq<bool>): (Writer, bool)
    requires |wire| == |events|
    decreases |events|
  {
    if events == [] then (w, true) else
      var (w1, ok) := LiveEvent(w, events[0], wire[0]);
      if ok then StreamAll(w1, events[1..], wire[1..]) else (w1, false)
  }

  /** The protocol's publications, one after another. */
  function PublishAll<C>(h: HubState<C, SseEvent>, rows: seq<SseEvent>, duds: set<int>): HubState<C, SseEvent>
    decreases |rows|
  {
    if rows == [] then h
    else PublishAll(if rows[0].id in duds then h else Broadcast(h, rows[0]), rows[1..], duds)
  }

  lemma {:induction false} PublishOneMore<C>(h: HubState<C, SseEvent>, rows: seq<SseEvent>, duds: set<int>, k: nat)
    requires k < |rows|
    ensures PublishAll(h, rows[..k + 1], duds) ==
            var g := PublishAll(h, rows[..k], duds); if rows[k].id in duds then g else Broadcast(g, rows[k])
    decreases k
  {
    if k > 0 {
      var h1 := if rows[0].id in duds then h else Broadcast(h, rows[0]);
      assert rows[..k + 1][1..] == rows[1..][..k] && rows[..k][1..] == rows[1..][..k - 1];
      PublishOneMore(h1, rows[1..], duds, k - 1);
    } else {
      assert rows[..1][1..] == [] && rows[..0] == [];
    }
  }

  /** The ids of `rows` that render. */
  function Rendered(rows: seq<nat>, duds: set<nat>): (r: seq<nat>)
    ensures forall id :: id in r <==> id in rows && id !in duds
  {
    if rows == [] then []
    else Rendered(rows[..|rows| - 1], duds)
         + (if rows[|rows| - 1] in duds then [] else [rows[|rows| - 1]])
  }

  /** `stop` is how many rows were got through: everything that renders among them was written, in
      order, and `last` is past all of them; a failed write ends the replay at a row that renders. */
  method ReplaySignals(rows: seq<nat>, duds: set<nat>, afterID: nat, wire: seq<bool>)
    returns (written: seq<nat>, last: nat, ok: bool, ghost stop: nat)
    requires |wire| == |rows|
    ensures (Writer(written, last), ok) == ReplayAll(Writer([], afterID), rows, duds, wire)
    ensures stop <= |rows| && written == Rendered(rows[..stop], duds)
    ensures last == if stop == 0 then afterID else rows[stop - 1]
    ensures ok <==> stop == |rows|
    ensures !ok ==> rows[stop] !in duds && !wire[stop]
  {
    written, last, ok, stop := [], afterID, true, 0;
    var i := 0;
    while i < |rows|
      invariant 0 <= i <= |rows| && stop == i
      invariant written == Rendered(rows[..i], duds)
      invariant last == if i == 0 then afterID else rows[i - 1]
      invariant ReplayAll(Writer(written, last), rows[i..], duds, wire[i..])
                == ReplayAll(Writer([], afterID), rows, duds, wire)
    {
      assert rows[..i + 1][..i] == rows[..i];
      assert rows[i..][1..] == rows[i + 1..] && wire[i..][1..] == wire[i + 1..];
      if rows[i] in duds {
        last := rows[i];
      } else {
        if !wire[i] {
          ok := false;
          return;
        }
        written := written + [rows[i]];
        last := rows[i];
      }
      i := i + 1;
      stop := i;
    }
    assert rows[..i] == rows;
  }

  /** Events in order that were met so far are smaller than the next. */
  lemma EarlierIsSmaller(events: seq<nat>, i: nat, last: nat)
    requires Sorted(events) && i < |events| && last in events[..i]
    ensures last < events[i]
  {
  }

  lemma OneMoreEvent(events: seq<nat>, i: nat)
    requires i < |events|
    ensures events[..i + 1] == events[..i] + [events[i]]
  {
  }

  /** The streaming loop over the events its channel delivers: what is written strictly increases from
      `lastWritten`, and without a write failure every newer event of an ordered channel is written. */
  method StreamLive(events: seq<nat>, lastWritten: nat, wire: seq<bool>)
    returns (written: seq<nat>, last: nat, ok: bool)
    requires |wire| == |events|
    ensures (Writer(written, last), ok) == StreamAll(Writer([], lastWritten), events, wire)
    ensures Sorted(written) && (forall id <- written :: lastWritten < id <= last && id in events)
    ensures last == if written == [] then lastWritten else written[|written| - 1]
    ensures ok ==> forall id <- events :: id <= last
    ensures ok && Sorted(events) ==> forall id <- events | id > lastWritten :: id in written
  {
    hide Sorted;
    written, last, ok := [], lastWritten, true;
    assert Sorted(written) by {
      NothingIsSorted();
    }
    var i := 0;
    while i < |events|
      invariant 0 <= i <= |events|
      invariant Sorted(written) && last == Last(lastWritten, written) >= lastWritten
      invariant forall id <- written :: lastWritten < id <= last && id in events[..i]
      invariant forall id <- events[..i] :: id <= last
      invariant Sorted(events) ==> forall id <- events[..i] | id > lastWritten :: id in written
      invariant StreamAll(Writer(written, last), events[i..], wire[i..])
                == StreamAll(Writer([], lastWritten), events, wire)
    {
      assert events[i..][1..] == events[i + 1..] && wire[i..][1..] == wire[i + 1..];
      OneMoreEvent(events, i);
      if events[i] > last {
        if !wire[i] {
          ok := false;
          return;
        }
        SortedAppend(written, events[i]);
        written := written + [events[i]];
        last := events[i];
      } else if written != [] && Sorted(events) {
        EarlierIsSmaller(events, i, written[|written| - 1]);
        assert false;
      }
      i := i + 1;
    }
    assert events[..i] == events;
  }

  lemma NothingIsSorted()
    ensures Sorted([])
  {
  }

  /** One row of a poll. */
  method PublishRow(hub: Hub, row: SseEvent, duds: set<int>)
    requires hub.Valid()
    modifies hub, hub.model.chans.Keys
    ensures hub.Valid() && hub.model == (if row.id in duds then old(hub.model) else Broadcast(old(hub.model), row))
    ensures hub.model.chans.Keys == old(hub.model.chans.Keys)
  {
    if row.id !in duds {
      var _ := hub.BroadcastEvent(row);
    }
  }

  /** One poll of the tail on the shared hub: the rows are broadcast in order, a row that does not
      marshal is skipped, and the cursor ends on the last row either way. */
  method PublishRows(hub: Hub, rows: seq<SseEvent>, duds: set<int>, lastID: int) returns (cursor: int)
    requires hub.Valid()
    modifies hub, hub.model.chans.Keys
    ensures hub.Valid() && hub.model == PublishAll(old(hub.model), rows, duds)
    ensures cursor == if rows == [] then lastID else rows[|rows| - 1].id
  {
    hide ChannelOk, Offer;
    cursor := lastID;
    var i := 0;
    ghost var start := hub.model;
    while i < |rows|
      invariant 0 <= i <= |rows| && hub.Valid() && hub.model.chans.Keys == start.chans.Keys
      invariant hub.model == PublishAll(start, rows[..i], duds)
      invariant cursor == if i == 0 then lastID else rows[i - 1].id
    {
      PublishOneMore(start, rows, duds, i);
      PublishRow(hub, rows[i], duds);
      cursor := rows[i].id;
      i := i + 1;
    }
    assert rows[..i] == rows;
  }
}
