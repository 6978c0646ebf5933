/** Rolling a wallet's LST transfers into one signal (internal/detect/lstflow.go, internal/store/api_queries.go). */
module LstFlow {
  import opened Common

  /** A decoded transfer that cleared the floor and the pool filter; an unresolvable actor is empty. */
  datatype Transfer = Transfer(token: string, actor: string, value: real, at: int)

  /** What a log decodes to, by its reference "tx:index"; None when it is skipped. Logs never change, and a
      reference resolves to one actor throughout a run. */
  type Decoder = string -> Option<Transfer>

  /** A type-4 signal: its identity, the stamp the database gave it, and the aggregate in its payload. */
  datatype Aggregate = Aggregate(token: string, actor: string, eventRef: string, createdAt: int,
                                 transfers: nat, total: real, firstAt: int, lastAt: int, refs: seq<string>)

  /** now is the time the latest scan started at. */
  datatype State = State(rows: map<nat, Aggregate>, nextId: nat, now: int)

  /** One log of a scan, and the stamp the row would get if this log opens one. */
  datatype Log = Log(ref: string, stamp: int)

  datatype Scan = Scan(now: int, logs: seq<Log>)

  predicate Open(a: Aggregate, actor: string, since: int) {
    a.actor == actor && a.createdAt >= since
  }

  predicate Newer(a: Aggregate, b: Aggregate) {
    a.createdAt > b.createdAt
  }

  /** OpenLSTSignalByActor over the rows below n: the newest open one, the higher id on a tie. */
  function OpenByActor(rows: map<nat, Aggregate>, actor: string, since: int, n: nat): (r: Option<nat>)
    ensures r.Some? ==> r.value < n && r.value in rows && Open(rows[r.value], actor, since)
    ensures r.None? ==> forall id <- rows | id < n :: !Open(rows[id], actor, since)
  {
    if n == 0 then None
    else
      var best := OpenByActor(rows, actor, since, n - 1);
      var id := n - 1;
      if id !in rows || !Open(rows[id], actor, since) then best
      else if best.Some? && Newer(rows[best.value], rows[id]) then best
      else Some(id)
  }

  function Opening(t: Transfer, ref: string, stamp: int): Aggregate {
    Aggregate(t.token, t.actor, ref, stamp, 1, t.value, t.at, t.at, [ref])
  }

  function Folded(a: Aggregate, t: Transfer, ref: string): Aggregate {
    if ref in a.refs then a
    else a.(transfers := a.transfers + 1, total := a.total + t.value, lastAt := t.at, refs := a.refs + [ref])
  }

  /** The unique key of event signals, here of one type. */
  predicate Recorded(rows: map<nat, Aggregate>, token: string, ref: string) {
    exists id <- rows :: rows[id].token == token && rows[id].eventRef == ref
  }

  predicate Aggregates(window: nat, t: Transfer) {
    window > 0 && t.actor != ""
  }

  /** The open aggregate a transfer folds into, if any. */
  function Target(s: State, window: nat, t: Transfer): Option<nat> {
    if Aggregates(window, t) then OpenByActor(s.rows, t.actor, s.now - window, s.nextId) else None
  }

  function Process(s: State, window: nat, decode: Decoder, l: Log): State {
    match decode(l.ref)
    case None => s
    case Some(t) =>
      match Target(s, window, t)
      case Some(id) => s.(rows := s.rows[id := Folded(s.rows[id], t, l.ref)])
      case None =>
        if Recorded(s.rows, t.token, l.ref) then s
        else s.(rows := s.rows[s.nextId := Opening(t, l.ref, l.stamp)], nextId := s.nextId + 1)
  }

  /** The first n logs of a scan. */
  function ProcessAll(s: State, window: nat, decode: Decoder, logs: seq<Log>, n: nat): State
    requires n <= |logs|
  {
    if n == 0 then s else Process(ProcessAll(s, window, decode, logs, n - 1), window, decode, logs[n - 1])
  }

  /** A scan that stops early on an error is one with fewer logs. */
  function ScanStep(s: State, window: nat, decode: Decoder, scan: Scan): State {
    if scan.now < s.now then s else ProcessAll(s.(now := scan.now), window, decode, scan.logs, |scan.logs|)
  }

  function Run(s: State, window: nat, decode: Decoder, scans: seq<Scan>): State {
    if scans == [] then s
    else ScanStep(Run(s, window, decode, scans[..|scans| - 1]), window, decode, scans[|scans| - 1])
  }

  function Start(now: int): State {
    State(map[], 0, now)
  }

  // ---------- The scanner ----------

  class LSTFlowDetector {
    var rows: map<nat, Aggregate>
    var nextId: nat
    var now: int

    function Abs(): State
      reads this
    {
      State(rows, nextId, now)
    }

    /** Adds one transfer to an open aggregate unless it already holds it. */
    method FoldIntoAggregate(id: nat, t: Transfer, ref: string) returns (changed: bool)
      requires id in rows
      modifies this`rows
      ensures rows == old(rows)[id := Folded(old(rows)[id], t, ref)] && changed == (ref !in old(rows)[id].refs)
    {
      var p := rows[id];
      for i := 0 to |p.refs|
        invariant ref !in p.refs[..i]
      {
        if p.refs[i] == ref {
          return false;
        }
      }
      assert p.refs[..|p.refs|] == p.refs;
      p := p.(transfers := p.transfers + 1, total := p.total + t.value, lastAt := t.at, refs := p.refs + [ref]);
      rows := rows[id := p];
      return true;
    }

    method InsertSignal(a: Aggregate) returns (inserted: bool)
      modifies this`rows, this`nextId
      ensures inserted == !Recorded(old(rows), a.token, a.eventRef)
      ensures rows == (if inserted then old(rows)[old(nextId) := a] else old(rows))
      ensures nextId == old(nextId) + if inserted then 1 else 0
    {
      inserted := !Recorded(rows, a.token, a.eventRef);
      if inserted {
        rows := rows[nextId := a];
        nextId := nextId + 1;
      }
    }

    /** Opens or folds each qualifying log in turn; returns the ids of the newly opened signals. */
    method ScanOnce(scan: Scan, window: nat, decode: Decoder) returns (newIds: seq<nat>)
      requires scan.now >= now
      modifies this
      ensures Abs() == ScanStep(old(Abs()), window, decode, scan)
      ensures |newIds| == nextId - old(nextId) && forall k | 0 <= k < |newIds| :: newIds[k] == old(nextId) + k
    {
      now := scan.now;
      newIds := [];
      ghost var s0 := Abs();
      for i := 0 to |scan.logs|
        invariant now == scan.now && Abs() == ProcessAll(s0, window, decode, scan.logs, i)
        invariant |newIds| == nextId - old(nextId) && forall k | 0 <= k < |newIds| :: newIds[k] == old(nextId) + k
      {
        var id := ScanLog(scan.logs[i], window, decode);
        if id.Some? {
          newIds := newIds + [id.value];
        }
      }
    }

    /** The body of the scan. */
    method ScanLog(l: Log, window: nat, decode: Decoder) returns (newId: Option<nat>)
      modifies this`rows, this`nextId
      ensures Abs() == Process(old(Abs()), window, decode, l)
      ensures nextId == old(nextId) + (if newId.Some? then 1 else 0) && (newId.Some? ==> newId.value == old(nextId))
    {
      var d := decode(l.ref);
      if d.None? {
        return None;
      }
      var t := d.value;
      if window > 0 && t.actor != "" {
        var found := OpenByActor(rows, t.actor, now - window, nextId);
        if found.Some? {
          var _ := FoldIntoAggregate(found.value, t, l.ref);
          return None;
        }
      }
      var inserted := InsertSignal(Opening(t, l.ref, l.stamp));
      return if inserted then Some(nextId - 1) else None;
    }
  }

  // ---------- What every scan keeps ----------

  function Sum(decode: Decoder, refs: seq<string>): real {
    if refs == [] then 0.0
    else
      var d := decode(refs[|refs| - 1]);
      Sum(decode, refs[..|refs| - 1]) + if d.Some? then d.value.value else 0.0
  }

  ghost predicate Distinct(refs: seq<string>) {
    forall i, j | 0 <= i < j < |refs| :: refs[i] != refs[j]
  }

  /** The block time of a log. */
  function At(decode: Decoder, ref: string): int {
    if decode(ref).Some? then decode(ref).value.at else 0
  }

  predicate Belongs(a: Aggregate, decode: Decoder, ref: string) {
    decode(ref).Some? && decode(ref).value.actor == a.actor
  }

  /** An aggregate says exactly what its references decode to. */
  ghost predicate AggregateOk(window: nat, decode: Decoder, a: Aggregate) {
    && a.refs != [] && a.refs[0] == a.eventRef && Distinct(a.refs)
    && (forall i | 0 <= i < |a.refs| :: Belongs(a, decode, a.refs[i]))
    && a.token == decode(a.eventRef).value.token
    && a.transfers == |a.refs|
    && a.total == Sum(decode, a.refs)
    && a.firstAt == At(decode, a.refs[0]) && a.lastAt == At(decode, a.refs[|a.refs| - 1])
    && (window == 0 || a.actor == "" ==> |a.refs| == 1)
  }

  /** No actor has two aggregates in the window of a scan at now. */
  ghost predicate OneOpen(rows: map<nat, Aggregate>, since: int) {
    forall i, j | i in rows && j in rows && i != j && rows[i].actor != "" && Open(rows[i], rows[i].actor, since) ::
      !Open(rows[j], rows[i].actor, since)
  }

  ghost predicate DistinctOpeners(rows: map<nat, Aggregate>) {
    forall i, j | i in rows && j in rows && i != j :: rows[i].eventRef != rows[j].eventRef
  }

  ghost predicate Inv(s: State, window: nat, decode: Decoder) {
    && (forall id <- s.rows :: id < s.nextId && AggregateOk(window, decode, s.rows[id]))
    && DistinctOpeners(s.rows)
    && (window > 0 ==> OneOpen(s.rows, s.now - window))
  }

  lemma FoldedIsOk(window: nat, decode: Decoder, a: Aggregate, ref: string)
    requires AggregateOk(window, decode, a) && window > 0 && a.actor != "" && Belongs(a, decode, ref)
    ensures AggregateOk(window, decode, Folded(a, decode(ref).value, ref))
  {
  }

  lemma OpeningIsOk(window: nat, decode: Decoder, l: Log)
    requires decode(l.ref).Some?
    ensures AggregateOk(window, decode, Opening(decode(l.ref).value, l.ref, l.stamp))
  {
  }

  lemma FoldKeeps(s: State, window: nat, decode: Decoder, id: nat, a: Aggregate)
    requires Inv(s, window, decode) && id in s.rows && AggregateOk(window, decode, a)
    requires a.actor == s.rows[id].actor && a.eventRef == s.rows[id].eventRef && a.createdAt == s.rows[id].createdAt
    ensures Inv(s.(rows := s.rows[id := a]), window, decode)
  {
    hide AggregateOk;
  }

  lemma OpenKeeps(s: State, window: nat, decode: Decoder, a: Aggregate)
    requires Inv(s, window, decode) && AggregateOk(window, decode, a)
    requires forall id <- s.rows :: s.rows[id].eventRef != a.eventRef
    requires window > 0 && a.actor != "" ==> forall id <- s.rows :: !Open(s.rows[id], a.actor, s.now - window)
    ensures Inv(s.(rows := s.rows[s.nextId := a], nextId := s.nextId + 1), window, decode)
  {
    hide AggregateOk;
  }

  /** A reference names its token, so an unrecorded one opens nothing else's key. */
  lemma UnrecordedIsNew(s: State, window: nat, decode: Decoder, ref: string)
    requires Inv(s, window, decode) && decode(ref).Some? && !Recorded(s.rows, decode(ref).value.token, ref)
    ensures forall id <- s.rows :: s.rows[id].eventRef != ref
  {
  }

  lemma ProcessKeepsInv(s: State, window: nat, decode: Decoder, l: Log)
    requires Inv(s, window, decode)
    ensures Inv(Process(s, window, decode, l), window, decode)
  {
    hide AggregateOk, DistinctOpeners, OneOpen, Folded, Sum, Recorded;
    if decode(l.ref).Some? {
      var t := decode(l.ref).value;
      match Target(s, window, t)
      case Some(id) =>
        FoldedIsOk(window, decode, s.rows[id], l.ref);
        FoldedIsItself(s.rows[id], t, l.ref);
        FoldKeeps(s, window, decode, id, Folded(s.rows[id], t, l.ref));
      case None =>
        if !Recorded(s.rows, t.token, l.ref) {
          UnrecordedIsNew(s, window, decode, l.ref);
          OpeningIsOk(window, decode, l);
          OpenKeeps(s, window, decode, Opening(t, l.ref, l.stamp));
        }
    }
  }

  /** Folding touches neither the identity nor the stamp, and drops no reference. */
  lemma FoldedIsItself(a: Aggregate, t: Transfer, ref: string)
    ensures var b := Folded(a, t, ref);
            b.actor == a.actor && b.eventRef == a.eventRef && b.createdAt == a.createdAt && b.token == a.token
            && ref in b.refs && a.refs <= b.refs
  {
  }

  lemma {:induction false} ProcessAllKeepsInv(s: State, window: nat, decode: Decoder, logs: seq<Log>, n: nat)
    requires Inv(s, window, decode) && n <= |logs|
    ensures Inv(ProcessAll(s, window, decode, logs, n), window, decode)
  {
    hide Inv, Process;
    if n > 0 {
      ProcessAllKeepsInv(s, window, decode, logs, n - 1);
      ProcessKeepsInv(ProcessAll(s, window, decode, logs, n - 1), window, decode, logs[n - 1]);
    }
  }

  lemma LaterKeepsInv(s: State, window: nat, decode: Decoder, now: int)
    requires Inv(s, window, decode) && now >= s.now
    ensures Inv(s.(now := now), window, decode)
  {
  }

  lemma {:induction false} RunKeepsInv(s: State, window: nat, decode: Decoder, scans: seq<Scan>)
    requires Inv(s, window, decode)
    ensures Inv(Run(s, window, decode, scans), window, decode)
  {
    hide Inv, Process;
    if scans != [] {
      var before, scan := Run(s, window, decode, scans[..|scans| - 1]), scans[|scans| - 1];
      RunKeepsInv(s, window, decode, scans[..|scans| - 1]);
      if scan.now >= before.now {
        LaterKeepsInv(before, window, decode, scan.now);
        ProcessAllKeepsInv(before.(now := scan.now), window, decode, scan.logs, |scan.logs|);
      }
    }
  }

  /** Over any run of overlapping scans, whatever stamps the database gives: no actor has two open aggregates at the
      latest scan or later; references are distinct and are all the actor's own; the count is their number, the total
      their sum; and the opening transfer stays the signal's identity. */
  lemma AggregatesAreSound(start: int, window: nat, decode: Decoder, scans: seq<Scan>, t: int)
    ensures var s := Run(Start(start), window, decode, scans);
            && (forall id <- s.rows ::
                  var a := s.rows[id];
                  && Distinct(a.refs) && a.transfers == |a.refs| && a.total == Sum(decode, a.refs)
                  && a.refs != [] && a.refs[0] == a.eventRef
                  && (forall i | 0 <= i < |a.refs| :: Belongs(a, decode, a.refs[i]))
                  && a.firstAt == At(decode, a.refs[0]) && a.lastAt == At(decode, a.refs[|a.refs| - 1]))
            && (window > 0 && t >= s.now ==> OneOpen(s.rows, t - window))
  {
    hide Process, Distinct, Sum, Belongs;
    RunKeepsInv(Start(start), window, decode, scans);
  }

  // ---------- The span of an aggregate ----------

  /** first_at and last_at are the earliest and the latest time of the transfers held. */
  ghost predicate SpanIsExact(a: Aggregate, decode: Decoder) {
    forall i | 0 <= i < |a.refs| :: a.firstAt <= At(decode, a.refs[i]) <= a.lastAt
  }

  /** The opener is the earliest of the references, and the last one folded the latest. */
  ghost predicate EndsAreExtreme(refs: seq<string>, decode: Decoder)
    requires refs != []
  {
    forall i | 0 <= i < |refs| :: At(decode, refs[0]) <= At(decode, refs[i]) <= At(decode, refs[|refs| - 1])
  }

  /** Over every run an aggregate's span is the one its fields are named for exactly when its opener is the earliest and
      the last transfer folded the latest of those it holds. */
  lemma SpanIsExactIff(start: int, window: nat, decode: Decoder, scans: seq<Scan>, id: nat)
    ensures var s := Run(Start(start), window, decode, scans);
            id in s.rows ==> s.rows[id].refs != []
                             && (SpanIsExact(s.rows[id], decode) <==> EndsAreExtreme(s.rows[id].refs, decode))
  {
    hide Process, Distinct, Sum, Belongs, At;
    RunKeepsInv(Start(start), window, decode, scans);
    var s := Run(Start(start), window, decode, scans);
    if id in s.rows {
      assert AggregateOk(window, decode, s.rows[id]);
    }
  }

  /** And a fold keeps it so exactly when the transfer it adds is no earlier than the last one. */
  lemma FoldKeepsSpanIff(window: nat, decode: Decoder, a: Aggregate, ref: string)
    requires AggregateOk(window, decode, a) && SpanIsExact(a, decode) && decode(ref).Some? && ref !in a.refs
    ensures SpanIsExact(Folded(a, decode(ref).value, ref), decode) <==> decode(ref).value.at >= a.lastAt
  {
    hide Sum, Distinct, Belongs;
    var b, n := Folded(a, decode(ref).value, ref), |a.refs|;
    assert b.refs[n - 1] == a.refs[n - 1] && b.refs[n] == ref;
    assert a.firstAt <= At(decode, a.refs[n - 1]) <= a.lastAt;
    assert forall i | 0 <= i < n :: b.refs[i] == a.refs[i];
  }

  /** Two transfers of one wallet; the log of the earlier one is stored after the later one was scanned. */
  const SWAPPED_DECODE: Decoder :=
    (ref: string) => if ref == "a:0" then Some(Transfer("meth", "whale", 10.0, 5))
                     else if ref == "b:0" then Some(Transfer("meth", "whale", 20.0, 3)) else None

  const SWAPPED_SCANS: seq<Scan> := [Scan(6, [Log("a:0", 6)]), Scan(7, [Log("b:0", 7)])]

  /** The span is then the wrong way round. */
  lemma LateLogSwapsTheSpan()
    ensures var s := Run(Start(0), 60, SWAPPED_DECODE, SWAPPED_SCANS);
            0 in s.rows && s.rows[0].refs == ["a:0", "b:0"] && s.rows[0].firstAt == 5 && s.rows[0].lastAt == 3
  {
    var s1 := ScanStep(Start(0), 60, SWAPPED_DECODE, SWAPPED_SCANS[0]);
    assert s1 == State(map[0 := Aggregate("meth", "whale", "a:0", 6, 1, 10.0, 5, 5, ["a:0"])], 1, 6);
    assert OpenByActor(s1.rows, "whale", -53, 0) == None;
    assert OpenByActor(s1.rows, "whale", -53, 1) == Some(0);
    assert "a:0"[0] != "b:0"[0] && ["a:0"] + ["b:0"] == ["a:0", "b:0"];
    var s2 := ScanStep(s1, 60, SWAPPED_DECODE, SWAPPED_SCANS[1]);
    assert s2 == ProcessAll(s1.(now := 7), 60, SWAPPED_DECODE, SWAPPED_SCANS[1].logs, 1);
    assert s2 == Process(s1.(now := 7), 60, SWAPPED_DECODE, Log("b:0", 7));
    assert s2.rows[0] == Folded(s1.rows[0], Transfer("meth", "whale", 20.0, 3), "b:0");
    assert SWAPPED_SCANS[..0] == [] && SWAPPED_SCANS[..1] == [SWAPPED_SCANS[0]] && SWAPPED_SCANS[..1][..0] == [];
    assert Run(Start(0), 60, SWAPPED_DECODE, SWAPPED_SCANS[..1]) == s1;
  }

  // ---------- Nothing is lost ----------

  predicate Holds(rows: map<nat, Aggregate>, ref: string) {
    exists id <- rows :: ref in rows[id].refs
  }

  /** References are only ever added. */
  ghost predicate Grew(rows: map<nat, Aggregate>, rows': map<nat, Aggregate>) {
    forall id <- rows :: id in rows' && rows[id].refs <= rows'[id].refs
  }

  lemma ProcessHolds(s: State, window: nat, decode: Decoder, l: Log)
    requires Inv(s, window, decode)
    ensures Grew(s.rows, Process(s, window, decode, l).rows)
    ensures decode(l.ref).Some? ==> Holds(Process(s, window, decode, l).rows, l.ref)
  {
    hide DistinctOpeners, OneOpen, Folded, Sum, Distinct, Belongs;
    if decode(l.ref).Some? {
      var t, u := decode(l.ref).value, Process(s, window, decode, l);
      match Target(s, window, t)
      case Some(id) =>
        FoldedIsItself(s.rows[id], t, l.ref);
        assert l.ref in u.rows[id].refs;
      case None =>
        if Recorded(s.rows, t.token, l.ref) {
          var id :| id in s.rows && s.rows[id].token == t.token && s.rows[id].eventRef == l.ref;
          assert AggregateOk(window, decode, s.rows[id]);
          assert l.ref in u.rows[id].refs;
        } else {
          assert l.ref in u.rows[s.nextId].refs;
        }
    }
  }

  lemma HeldStays(rows: map<nat, Aggregate>, rows': map<nat, Aggregate>, ref: string)
    requires Grew(rows, rows') && Holds(rows, ref)
    ensures Holds(rows', ref)
  {
  }

  lemma {:induction false} ScanHolds(s: State, window: nat, decode: Decoder, logs: seq<Log>, n: nat)
    requires Inv(s, window, decode) && n <= |logs|
    ensures var u := ProcessAll(s, window, decode, logs, n);
            && (forall ref: string :: Holds(s.rows, ref) ==> Holds(u.rows, ref))
            && (forall i | 0 <= i < n :: decode(logs[i].ref).Some? ==> Holds(u.rows, logs[i].ref))
  {
    hide Inv, Process, Holds, Grew;
    if n > 0 {
      var before := ProcessAll(s, window, decode, logs, n - 1);
      ScanHolds(s, window, decode, logs, n - 1);
      ProcessAllKeepsInv(s, window, decode, logs, n - 1);
      ProcessHolds(before, window, decode, logs[n - 1]);
      forall ref: string | Holds(before.rows, ref)
        ensures Holds(ProcessAll(s, window, decode, logs, n).rows, ref)
      {
        HeldStays(before.rows, ProcessAll(s, window, decode, logs, n).rows, ref);
      }
    }
  }

  predicate Reads(logs: seq<Log>, ref: string) {
    exists i | 0 <= i < |logs| :: logs[i].ref == ref
  }

  /** The log was read by one of the scans that ran. */
  predicate Scanned(s: State, window: nat, decode: Decoder, scans: seq<Scan>, ref: string) {
    scans != []
    && (Scanned(s, window, decode, scans[..|scans| - 1], ref)
        || (scans[|scans| - 1].now >= Run(s, window, decode, scans[..|scans| - 1]).now
            && Reads(scans[|scans| - 1].logs, ref)))
  }

  /** Every qualifying log a run has scanned is held by some aggregate at its end. */
  lemma {:induction false} NothingIsLost(start: int, window: nat, decode: Decoder, scans: seq<Scan>, ref: string)
    requires Scanned(Start(start), window, decode, scans, ref) && decode(ref).Some?
    ensures Holds(Run(Start(start), window, decode, scans).rows, ref)
  {
    hide Inv, Process, Holds;
    var earlier, scan := scans[..|scans| - 1], scans[|scans| - 1];
    var before := Run(Start(start), window, decode, earlier);
    StartIsOk(start, window, decode);
    RunKeepsInv(Start(start), window, decode, earlier);
    if scan.now >= before.now {
      LaterKeepsInv(before, window, decode, scan.now);
      ScanHolds(before.(now := scan.now), window, decode, scan.logs, |scan.logs|);
    }
    if Scanned(Start(start), window, decode, earlier, ref) {
      NothingIsLost(start, window, decode, earlier, ref);
    }
  }

  lemma StartIsOk(start: int, window: nat, decode: Decoder)
    ensures Inv(Start(start), window, decode)
  {
  }

  // ---------- Scanning again ----------

  /** Some aggregate of the actor that is still open at the scan holds the reference. */
  predicate OpenlyHolds(s: State, window: nat, t: Transfer, ref: string) {
    exists id <- s.rows :: Open(s.rows[id], t.actor, s.now - window) && ref in s.rows[id].refs
  }

  predicate AnyOpen(s: State, window: nat, t: Transfer) {
    exists id <- s.rows :: Open(s.rows[id], t.actor, s.now - window)
  }

  predicate Opener(rows: map<nat, Aggregate>, ref: string) {
    exists id <- rows :: rows[id].eventRef == ref
  }

  lemma OpenerIsRecorded(s: State, window: nat, decode: Decoder, ref: string)
    requires Inv(s, window, decode) && decode(ref).Some?
    ensures Recorded(s.rows, decode(ref).value.token, ref) == Opener(s.rows, ref)
  {
  }

  /** The target is the one open aggregate of the actor. */
  lemma TargetIsTheOpenOne(s: State, window: nat, decode: Decoder, t: Transfer, id: nat)
    requires Inv(s, window, decode) && Aggregates(window, t)
    requires id in s.rows && Open(s.rows[id], t.actor, s.now - window)
    ensures Target(s, window, t) == Some(id)
  {
  }

  /** The row is its actor's, for a transfer that is aggregated, and was stored within the window before now. */
  predicate TakesIn(s: State, window: nat, t: Transfer, id: nat)
    requires id in s.rows
  {
    window > 0 && t.actor != "" && s.rows[id].actor == t.actor && s.rows[id].createdAt + window >= s.now
  }

  /** The one aggregate that takes the transfer in, if there is one. */
  lemma TargetTakesIn(s: State, window: nat, decode: Decoder, t: Transfer)
    requires Inv(s, window, decode)
    ensures Target(s, window, t).Some? ==>
              Target(s, window, t).value in s.rows && TakesIn(s, window, t, Target(s, window, t).value)
    ensures forall id <- s.rows | TakesIn(s, window, t, id) :: Target(s, window, t) == Some(id)
  {
    hide AggregateOk, DistinctOpeners, OneOpen;
    forall id <- s.rows | TakesIn(s, window, t, id)
      ensures Target(s, window, t) == Some(id)
    {
      TargetIsTheOpenOne(s, window, decode, t, id);
    }
  }

  /** What a qualifying log does: it is added to the one open aggregate of its actor, unless that holds it; where none
      is open it opens a signal of its own, unless it once did. */
  lemma OpensOrFolds(s: State, window: nat, decode: Decoder, l: Log)
    requires Inv(s, window, decode) && decode(l.ref).Some?
    ensures var t, r := decode(l.ref).value, Process(s, window, decode, l);
            var opens := (forall id <- s.rows :: !TakesIn(s, window, t, id) && s.rows[id].eventRef != l.ref);
            && r.nextId == s.nextId + (if opens then 1 else 0)
            && r.rows.Keys == s.rows.Keys + (if opens then {s.nextId} else {})
            && (opens ==>
                  r.rows[s.nextId] == Aggregate(t.token, t.actor, l.ref, l.stamp, 1, t.value, t.at, t.at, [l.ref]))
            && forall id <- s.rows ::
                 var a := s.rows[id];
                 r.rows[id] == if TakesIn(s, window, t, id) && l.ref !in a.refs
                               then a.(transfers := a.transfers + 1, total := a.total + t.value, lastAt := t.at,
                                       refs := a.refs + [l.ref])
                               else a
  {
    hide AggregateOk, DistinctOpeners, OneOpen, Recorded, Opener, Target, TakesIn;
    var t := decode(l.ref).value;
    OpenerIsRecorded(s, window, decode, l.ref);
    OpenerIs(s.rows, l.ref);
    TargetTakesIn(s, window, decode, t);
    assert forall id <- s.rows :: id < s.nextId;
  }

  lemma OpenerIs(rows: map<nat, Aggregate>, ref: string)
    ensures Opener(rows, ref) <==> !forall id <- rows :: rows[id].eventRef != ref
  {
  }

  /** Scanning a qualifying log changes the table unless, for an aggregated transfer, an open aggregate of its actor
      holds it, or none is open and the log once opened one; for any other transfer, unless the log opened one. */
  lemma ProcessIsNoOpIff(s: State, window: nat, decode: Decoder, l: Log)
    requires Inv(s, window, decode) && decode(l.ref).Some?
    ensures var t := decode(l.ref).value;
            Process(s, window, decode, l) == s <==>
            if Aggregates(window, t)
            then OpenlyHolds(s, window, t, l.ref) || (!AnyOpen(s, window, t) && Opener(s.rows, l.ref))
            else Opener(s.rows, l.ref)
  {
    hide AggregateOk, DistinctOpeners, OneOpen, Recorded, Opener;
    var t := decode(l.ref).value;
    OpenerIsRecorded(s, window, decode, l.ref);
    match Target(s, window, t)
    case Some(id) =>
      assert Open(s.rows[id], t.actor, s.now - window);
      if OpenlyHolds(s, window, t, l.ref) {
        var k :| k in s.rows && Open(s.rows[k], t.actor, s.now - window) && l.ref in s.rows[k].refs;
        TargetIsTheOpenOne(s, window, decode, t, k);
      } else {
        assert l.ref !in s.rows[id].refs;
        assert Process(s, window, decode, l).rows[id].transfers == s.rows[id].transfers + 1;
      }
    case None =>
      forall id <- s.rows
        ensures id < s.nextId
      {
      }
      if !Recorded(s.rows, t.token, l.ref) {
        assert Process(s, window, decode, l).nextId != s.nextId;
      }
  }

  /** Scanning again, in any order and any number of times, logs that still-open aggregates hold (or, where nothing is
      aggregated, logs that some signal holds) changes nothing. */
  lemma {:induction false} RescanChangesNothing(s: State, window: nat, decode: Decoder, logs: seq<Log>, n: nat)
    requires Inv(s, window, decode) && n <= |logs|
    requires forall i | 0 <= i < |logs| && decode(logs[i].ref).Some? ::
               var t := decode(logs[i].ref).value;
               if Aggregates(window, t) then OpenlyHolds(s, window, t, logs[i].ref) else Holds(s.rows, logs[i].ref)
    ensures ProcessAll(s, window, decode, logs, n) == s
  {
    hide Inv, Process, OpenlyHolds, Holds;
    if n > 0 {
      RescanChangesNothing(s, window, decode, logs, n - 1);
      var l := logs[n - 1];
      if decode(l.ref).Some? {
        if !Aggregates(window, decode(l.ref).value) {
          LoneIsOpener(s, window, decode, l.ref);
        }
        ProcessIsNoOpIff(s, window, decode, l);
      } else {
        SkippedIsNoOp(s, window, decode, l);
      }
    }
  }

  lemma SkippedIsNoOp(s: State, window: nat, decode: Decoder, l: Log)
    requires decode(l.ref).None?
    ensures Process(s, window, decode, l) == s
  {
  }

  /** Where nothing is aggregated, a log that is held opened its own signal. */
  lemma LoneIsOpener(s: State, window: nat, decode: Decoder, ref: string)
    requires Inv(s, window, decode) && decode(ref).Some? && !Aggregates(window, decode(ref).value) && Holds(s.rows, ref)
    ensures Opener(s.rows, ref)
  {
  }

  // ---------- Across expiry ----------

  /** Two transfers of one wallet, an hour's window; the second comes a minute before the aggregate expires. */
  const LATE_DECODE: Decoder :=
    (ref: string) => if ref == "a:0" then Some(Transfer("meth", "whale", 10.0, 0))
                     else if ref == "b:0" then Some(Transfer("meth", "whale", 20.0, 59)) else None

  const LATE_SCANS: seq<Scan> := [Scan(0, [Log("a:0", 0)]), Scan(59, [Log("b:0", 59)]), Scan(61, [Log("b:0", 61)])]

  /** A folded log is counted again once its aggregate has expired and an overlapping scan still reads it. */
  lemma ExpiryCountsTwice()
    ensures var s := Run(Start(0), 60, LATE_DECODE, LATE_SCANS);
            && 0 in s.rows && 1 in s.rows && s.rows[0].refs == ["a:0", "b:0"] && s.rows[1].refs == ["b:0"]
            && s.rows[0].total + s.rows[1].total == 50.0
  {
    var s1 := ScanStep(Start(0), 60, LATE_DECODE, LATE_SCANS[0]);
    assert s1 == State(map[0 := Aggregate("meth", "whale", "a:0", 0, 1, 10.0, 0, 0, ["a:0"])], 1, 0);
    assert OpenByActor(s1.rows, "whale", -1, 0) == None;
    assert OpenByActor(s1.rows, "whale", -1, 1) == Some(0);
    var s2 := ScanStep(s1, 60, LATE_DECODE, LATE_SCANS[1]);
    assert s2 == ProcessAll(s1.(now := 59), 60, LATE_DECODE, LATE_SCANS[1].logs, 1);
    assert s2 == Process(s1.(now := 59), 60, LATE_DECODE, Log("b:0", 59));
    assert "a:0"[0] != "b:0"[0] && ["a:0"] + ["b:0"] == ["a:0", "b:0"];
    assert s2.rows[0] == Folded(s1.rows[0], Transfer("meth", "whale", 20.0, 59), "b:0");
    assert s2 == State(map[0 := Aggregate("meth", "whale", "a:0", 0, 2, 30.0, 0, 59, ["a:0", "b:0"])], 1, 59);
    assert OpenByActor(s2.rows, "whale", 1, 0) == None;
    assert OpenByActor(s2.rows, "whale", 1, 1) == None;
    var s3 := ScanStep(s2, 60, LATE_DECODE, LATE_SCANS[2]);
    assert LATE_SCANS[..0] == [] && LATE_SCANS[..1] == [LATE_SCANS[0]]
        && LATE_SCANS[..2] == [LATE_SCANS[0], LATE_SCANS[1]];
    assert LATE_SCANS[..2][..1] == LATE_SCANS[..1] && LATE_SCANS[..1][..0] == [];
    assert Run(Start(0), 60, LATE_DECODE, LATE_SCANS[..1]) == s1;
    assert Run(Start(0), 60, LATE_DECODE, LATE_SCANS[..2]) == s2;
  }
}
