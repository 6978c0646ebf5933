/** Attesting signals on chain: the hot path, the recovery loop and the outcome path over one table
    (cmd/ocr/main.go, internal/outcome/outcome.go). */
module Attestation {
  import opened Text
  import C = Canonical

  /** The columns of a signal that nothing updates. An empty eventRef is NULL, and so is ts at the zero time. */
  datatype Signal = Signal(pool: string, signalType: int, metric: string, eventRef: string, zscore: real, ts: int)

  /** The zero time in Unix seconds. */
  const ZERO_TIME := -62135596800

  datatype Row = Row(sig: Signal, attestTx: string, status: string, note: string, payload: string)

  /** What one attest() transaction carries; preimage is the string that is hashed. */
  datatype Call = Call(preimage: string, subject: string, signalType: int, score: nat)

  function CanonOf(s: Signal): C.Canon {
    C.Canon(s.pool, s.signalType, if s.eventRef != "" then C.Ref(s.eventRef) else C.Metric(s.metric),
            C.ScoreFromZ(s.zscore), s.ts)
  }

  /** The subject address depends on the pool's hex digits only, not on their case. */
  function CallOf(s: Signal): Call {
    Call(C.Encode(CanonOf(s)), ToLower(s.pool), s.signalType, C.ScoreFromZ(s.zscore))
  }

  predicate Attestable(s: Signal) {
    1 <= s.signalType <= 255
  }

  /** What InsertSignal stores. */
  function Stored(s: Signal): Signal {
    s.(pool := ToLower(s.pool))
  }

  lemma {:induction false} LowerTwice(s: string)
    ensures ToLower(ToLower(s)) == ToLower(s)
  {
  }

  /** The hot path hashes the signal in memory, recovery the stored row: the calls agree. */
  lemma StoredCallIsTheSame(s: Signal)
    ensures CallOf(Stored(s)) == CallOf(s)
  {
    LowerTwice(s.pool);
    C.PoolCaseIsIgnored(CanonOf(s), CanonOf(Stored(s)));
  }

  /** The unique keys of the signals table. */
  predicate Conflict(a: Signal, b: Signal) {
    && a.pool == b.pool && a.signalType == b.signalType
    && ((a.eventRef != "" && a.eventRef == b.eventRef)
        || (a.eventRef == "" && b.eventRef == "" && a.metric == b.metric && a.ts == b.ts && a.ts != ZERO_TIME))
  }

  /** A bucket signal without a bucket time is exempt from the unique key. */
  predicate Exempt(s: Signal) {
    s.eventRef == "" && s.ts == ZERO_TIME
  }

  /** Two bucket signals without a bucket time that nothing else tells apart. */
  predicate Twins(a: Signal, b: Signal) {
    && Exempt(a) && Exempt(b)
    && a.pool == b.pool && a.signalType == b.signalType && a.metric == b.metric
    && C.ScoreFromZ(a.zscore) == C.ScoreFromZ(b.zscore)
  }

  lemma SameCallIff(a: Signal, b: Signal)
    requires ToLower(a.pool) == a.pool && ToLower(b.pool) == b.pool
    ensures CallOf(a).preimage == CallOf(b).preimage ==> Conflict(a, b) || Twins(a, b)
    ensures Twins(a, b) ==> CallOf(a) == CallOf(b)
  {
    hide C.Encode;
    if CallOf(a).preimage == CallOf(b).preimage {
      C.CanonicalIsInjective(CanonOf(a), CanonOf(b));
    }
  }

  // ---------- Every process over one table ----------

  /** A broadcast: tx is empty when the node answered with an error, though it may have propagated.
      readTx is what a recovery pass had read in the row's attest_tx; the hot path reads nothing. */
  datatype Sent = Sent(id: nat, call: Call, tx: string, readTx: string)

  datatype Phase = Attesting | Persisting(tx: string, attempt: nat) | Marking | Done

  /** A process between two of its effects. */
  datatype Worker =
    | Hot(id: nat, sig: Signal, phase: Phase)
    | Recovery(snapshot: seq<(nat, Row)>, next: nat, phase: Phase)
    | Grading(id: nat, sig: Signal, phase: Phase)

  datatype State = State(rows: map<nat, Row>, nextId: nat, sends: seq<Sent>, outcomes: seq<(nat, string)>,
                         workers: seq<Worker>)

  /** What the node or the database answers. A write may be applied although it is reported as failed. */
  datatype Answer = NotSent | SendFailed | SendAccepted(tx: string) | Written(applied: bool, ok: bool)

  datatype Action =
    | Insert(sig: Signal, payload: string)
    | StartRecovery(limit: nat)
    | StartGrading(id: nat)
    | Advance(w: nat, answer: Answer)
    | Fold(id: nat, payload: string)
    | SetNote(id: nat, note: string)
    | SetStatus(id: nat, status: string)
    | Stop(w: nat)
    | Crash

  const ATTEMPTS := 3

  /** How many rows a recovery pass may look at: the supervisor's loop, and the one-shot command. */
  const LOOP_SCAN: nat := 500
  const CLI_SCAN: nat := 10000

  /** The row a worker is on. */
  predicate Busy(w: Worker) {
    w.phase != Done && (w.Recovery? ==> w.next < |w.snapshot|)
  }

  function IdOf(w: Worker): nat
    requires Busy(w)
  {
    if w.Recovery? then w.snapshot[w.next].0 else w.id
  }

  function SigOf(w: Worker): Signal
    requires Busy(w)
  {
    if w.Recovery? then w.snapshot[w.next].1.sig else w.sig
  }

  function ReadTx(w: Worker): string
    requires Busy(w)
  {
    if w.Recovery? then w.snapshot[w.next].1.attestTx else ""
  }

  function In(w: Worker, phase: Phase): Worker {
    match w
    case Hot(id, sig, _) => Hot(id, sig, phase)
    case Recovery(snapshot, next, _) => Recovery(snapshot, next, phase)
    case Grading(id, sig, _) => Grading(id, sig, phase)
  }

  function Next(w: Worker): Worker {
    match w
    case Recovery(snapshot, next, _) => Recovery(snapshot, next + 1, Attesting)
    case _ => In(w, Done)
  }

  /** Ids are given out in order, and rows are never deleted. */
  predicate Dense(rows: map<nat, Row>, nextId: nat) {
    forall id | 0 <= id < nextId :: id in rows
  }

  /** RecentSignals: the `limit` newest rows, newest first. */
  function Newest(rows: map<nat, Row>, nextId: nat, limit: nat): seq<(nat, Row)>
    requires Dense(rows, nextId)
  {
    seq(if limit < nextId then limit else nextId,
        k requires 0 <= k < nextId => (nextId - 1 - k, rows[nextId - 1 - k]))
  }

  predicate Enabled(s: State, a: Action) {
    match a
    case Insert(_, _) => true
    case StartRecovery(limit) => limit <= CLI_SCAN && Dense(s.rows, s.nextId)
    case StartGrading(id) => id in s.rows
    case Advance(w, answer) =>
      && w < |s.workers| && Busy(s.workers[w]) && IdOf(s.workers[w]) in s.rows
      && AnswerFits(s.workers[w].phase, answer)
    case Fold(id, _) => id in s.rows
    case SetNote(id, _) => id in s.rows
    case SetStatus(id, _) => id in s.rows
    case Stop(w) => w < |s.workers|
    case Crash => true
  }

  /** Sends answer Attesting, writes the other phases; an accepted send names its transaction. */
  predicate AnswerFits(p: Phase, a: Answer) {
    match a
    case Written(applied, ok) => !p.Attesting? && (ok ==> applied)
    case SendAccepted(tx) => p.Attesting? && tx != ""
    case _ => p.Attesting?
  }

  /** The Attesting step: what is broadcast, and where the worker goes. */
  function Attest(w: Worker, answer: Answer): (seq<Sent>, Worker)
    requires Busy(w)
  {
    if ReadTx(w) != "" || !Attestable(SigOf(w)) || answer.NotSent? then ([], Next(w))
    else if answer.SendAccepted? then
      ([Sent(IdOf(w), CallOf(SigOf(w)), answer.tx, ReadTx(w))], In(w, Persisting(answer.tx, 1)))
    else ([Sent(IdOf(w), CallOf(SigOf(w)), "", ReadTx(w))], Next(w))
  }

  /** After a write of attest_tx: retry up to three times; the hot path marks the row only once it is persisted. */
  function AfterPersist(w: Worker, answer: Answer): Worker
    requires w.phase.Persisting? && answer.Written?
  {
    if answer.ok then In(w, Marking)
    else if w.phase.attempt < ATTEMPTS then In(w, Persisting(w.phase.tx, w.phase.attempt + 1))
    else if w.Recovery? then In(w, Marking)
    else In(w, Done)
  }

  function Progress(s: State, w: nat, answer: Answer): State
    requires Enabled(s, Advance(w, answer))
  {
    var worker := s.workers[w];
    var id := IdOf(worker);
    match worker.phase
    case Attesting =>
      if worker.Grading? then
        var sent := if Attestable(worker.sig) && !answer.NotSent? then [(id, CallOf(worker.sig).preimage)] else [];
        s.(outcomes := s.outcomes + sent, workers := s.workers[w := Next(worker)])
      else
        var (sent, after) := Attest(worker, answer);
        s.(sends := s.sends + sent, workers := s.workers[w := after])
    case Persisting(tx, _) =>
      s.(rows := if answer.applied then s.rows[id := s.rows[id].(attestTx := ToLower(tx))] else s.rows,
         workers := s.workers[w := AfterPersist(worker, answer)])
    case Marking =>
      s.(rows := if answer.applied then s.rows[id := s.rows[id].(status := "submitted")] else s.rows,
         workers := s.workers[w := Next(worker)])
    case Done => s
  }

  function Inserted(s: State, sig: Signal, payload: string): State {
    if exists id <- s.rows :: Conflict(s.rows[id].sig, Stored(sig)) then s
    else s.(rows := s.rows[s.nextId := Row(Stored(sig), "", "new", "", payload)], nextId := s.nextId + 1,
            workers := s.workers + [Hot(s.nextId, sig, Attesting)])
  }

  function Step(s: State, a: Action): State
    requires Enabled(s, a)
  {
    match a
    case Insert(sig, payload) => Inserted(s, sig, payload)
    case StartRecovery(limit) =>
      s.(workers := s.workers + [Recovery(Newest(s.rows, s.nextId, limit), 0, Attesting)])
    case StartGrading(id) => s.(workers := s.workers + [Grading(id, s.rows[id].sig, Attesting)])
    case Advance(w, answer) => Progress(s, w, answer)
    case Fold(id, payload) => s.(rows := s.rows[id := s.rows[id].(payload := payload)])
    case SetNote(id, note) => s.(rows := s.rows[id := s.rows[id].(note := note)])
    case SetStatus(id, status) => s.(rows := s.rows[id := s.rows[id].(status := status)])
    case Stop(w) => s.(workers := s.workers[..w] + s.workers[w + 1..])
    case Crash => s.(workers := [])
  }

  /** Disabled actions change nothing. */
  function Run(s: State, acts: seq<Action>): State {
    if acts == [] then s
    else
      var before := Run(s, acts[..|acts| - 1]);
      var a := acts[|acts| - 1];
      if Enabled(before, a) then Step(before, a) else before
  }

  const START := State(map[], 0, [], [], [])

  // ---------- What every step keeps ----------

  /** Some accepted send for id returned this transaction hash. */
  ghost predicate Backed(sends: seq<Sent>, id: nat, tx: string) {
    exists i | 0 <= i < |sends| :: sends[i].id == id && sends[i].tx != "" && ToLower(sends[i].tx) == tx
  }

  ghost predicate RowOk(sends: seq<Sent>, id: nat, r: Row) {
    && ToLower(r.sig.pool) == r.sig.pool
    && (r.attestTx != "" ==> Backed(sends, id, r.attestTx))
  }

  predicate SentOk(rows: map<nat, Row>, x: Sent) {
    x.id in rows && Attestable(rows[x.id].sig) && x.call == CallOf(rows[x.id].sig) && x.readTx == ""
  }

  predicate OutcomeOk(rows: map<nat, Row>, x: (nat, string)) {
    x.0 in rows && Attestable(rows[x.0].sig) && x.1 == CallOf(rows[x.0].sig).preimage
  }

  predicate SameSignal(rows: map<nat, Row>, id: nat, sig: Signal) {
    id in rows && rows[id].sig == sig
  }

  ghost predicate WorkerOk(rows: map<nat, Row>, sends: seq<Sent>, w: Worker) {
    && (match w
        case Hot(id, sig, _) => SameSignal(rows, id, Stored(sig))
        case Grading(id, sig, _) => SameSignal(rows, id, sig) && (w.phase == Attesting || w.phase == Done)
        case Recovery(snapshot, next, _) =>
          forall k | 0 <= k < |snapshot| :: SameSignal(rows, snapshot[k].0, snapshot[k].1.sig))
    && (w.phase.Persisting? && Busy(w) ==> w.phase.tx != "" && Backed(sends, IdOf(w), ToLower(w.phase.tx)))
  }

  ghost predicate Unique(rows: map<nat, Row>) {
    forall i, j | i in rows && j in rows && i != j :: !Conflict(rows[i].sig, rows[j].sig)
  }

  ghost predicate Inv(s: State) {
    && Dense(s.rows, s.nextId)
    && (forall id <- s.rows :: id < s.nextId && RowOk(s.sends, id, s.rows[id]))
    && (forall i | 0 <= i < |s.sends| :: SentOk(s.rows, s.sends[i]))
    && (forall i | 0 <= i < |s.outcomes| :: OutcomeOk(s.rows, s.outcomes[i]))
    && (forall i | 0 <= i < |s.workers| :: WorkerOk(s.rows, s.sends, s.workers[i]))
    && Unique(s.rows)
  }

  /** No row disappears and no signal changes. */
  ghost predicate Extends(rows: map<nat, Row>, rows': map<nat, Row>) {
    forall id <- rows :: id in rows' && rows'[id].sig == rows[id].sig
  }

  lemma BackedGrows(sends: seq<Sent>, more: seq<Sent>, id: nat, tx: string)
    requires Backed(sends, id, tx)
    ensures Backed(sends + more, id, tx)
  {
    var i :| 0 <= i < |sends| && sends[i].id == id && sends[i].tx != "" && ToLower(sends[i].tx) == tx;
    assert (sends + more)[i] == sends[i];
  }

  lemma WorkerKept(rows: map<nat, Row>, sends: seq<Sent>, rows': map<nat, Row>, more: seq<Sent>, w: Worker)
    requires WorkerOk(rows, sends, w) && Extends(rows, rows')
    ensures WorkerOk(rows', sends + more, w)
  {
    hide Backed, Stored;
    if w.phase.Persisting? && Busy(w) {
      BackedGrows(sends, more, IdOf(w), ToLower(w.phase.tx));
    }
  }

  /** The parts of the invariant that speak of what already happened survive any growth of rows and sends. */
  lemma PastKept(s: State, rows': map<nat, Row>, more: seq<Sent>)
    requires Inv(s) && Extends(s.rows, rows')
    ensures forall i | 0 <= i < |s.sends| :: SentOk(rows', s.sends[i])
    ensures forall i | 0 <= i < |s.outcomes| :: OutcomeOk(rows', s.outcomes[i])
    ensures forall i | 0 <= i < |s.workers| :: WorkerOk(rows', s.sends + more, s.workers[i])
    ensures forall id <- s.rows :: RowOk(s.sends + more, id, s.rows[id])
  {
    hide WorkerOk, Backed, CallOf, Unique;
    forall i | 0 <= i < |s.workers|
      ensures WorkerOk(rows', s.sends + more, s.workers[i])
    {
      WorkerKept(s.rows, s.sends, rows', more, s.workers[i]);
    }
    forall id <- s.rows
      ensures RowOk(s.sends + more, id, s.rows[id])
    {
      if s.rows[id].attestTx != "" {
        BackedGrows(s.sends, more, id, s.rows[id].attestTx);
      }
    }
  }

  /** Rewriting a row's other columns keeps everything, if its attest_tx stays backed. */
  lemma UpdateKeeps(s: State, id: nat, r: Row)
    requires Inv(s) && id in s.rows && r.sig == s.rows[id].sig && RowOk(s.sends, id, r)
    ensures Inv(s.(rows := s.rows[id := r]))
  {
    hide WorkerOk, RowOk, SentOk, OutcomeOk, Conflict;
    PastKept(s, s.rows[id := r], []);
    assert s.sends + [] == s.sends;
  }

  lemma InsertKeeps(s: State, sig: Signal, payload: string)
    requires Inv(s)
    ensures Inv(Inserted(s, sig, payload))
  {
    hide WorkerOk, RowOk, SentOk, OutcomeOk, Conflict, Stored;
    if !exists id <- s.rows :: Conflict(s.rows[id].sig, Stored(sig)) {
      var rows := s.rows[s.nextId := Row(Stored(sig), "", "new", "", payload)];
      PastKept(s, rows, []);
      assert s.sends + [] == s.sends;
      NewRowOk(s.sends, s.nextId, sig, payload);
      NewHotOk(rows, s.sends, s.nextId, sig);
      NewRowIsUnique(s.rows, s.nextId, rows[s.nextId]);
      var t := Inserted(s, sig, payload);
      forall i | 0 <= i < |t.workers|
        ensures WorkerOk(t.rows, t.sends, t.workers[i])
      {
        assert i < |s.workers| ==> t.workers[i] == s.workers[i];
      }
    }
  }

  lemma NewRowIsUnique(rows: map<nat, Row>, id: nat, r: Row)
    requires Unique(rows) && forall i <- rows :: i != id && !Conflict(rows[i].sig, r.sig)
    ensures Unique(rows[id := r])
  {
  }

  lemma NewRowOk(sends: seq<Sent>, id: nat, sig: Signal, payload: string)
    ensures RowOk(sends, id, Row(Stored(sig), "", "new", "", payload))
  {
  }

  lemma NewHotOk(rows: map<nat, Row>, sends: seq<Sent>, id: nat, sig: Signal)
    requires SameSignal(rows, id, Stored(sig))
    ensures WorkerOk(rows, sends, Hot(id, sig, Attesting))
  {
  }

  lemma NewWorkerKeeps(s: State, w: Worker)
    requires Inv(s) && WorkerOk(s.rows, s.sends, w)
    ensures Inv(s.(workers := s.workers + [w]))
  {
    hide WorkerOk, RowOk, SentOk, OutcomeOk, Unique;
  }

  lemma ReplacedWorkerKeeps(s: State, i: nat, w: Worker)
    requires Inv(s) && i < |s.workers| && WorkerOk(s.rows, s.sends, w)
    ensures Inv(s.(workers := s.workers[i := w]))
  {
    hide WorkerOk, RowOk, SentOk, OutcomeOk, Unique;
  }

  lemma FewerWorkersKeep(s: State, i: nat)
    requires Inv(s) && i < |s.workers|
    ensures Inv(s.(workers := s.workers[..i] + s.workers[i + 1..])) && Inv(s.(workers := []))
  {
  }

  lemma NextIsOk(rows: map<nat, Row>, sends: seq<Sent>, w: Worker)
    requires WorkerOk(rows, sends, w)
    ensures WorkerOk(rows, sends, Next(w))
  {
  }

  /** What a worker that is about to send would send is the row's own call. */
  lemma CallIsTheRows(rows: map<nat, Row>, sends: seq<Sent>, w: Worker)
    requires WorkerOk(rows, sends, w) && Busy(w)
    ensures IdOf(w) in rows && CallOf(rows[IdOf(w)].sig) == CallOf(SigOf(w))
    ensures Attestable(rows[IdOf(w)].sig) == Attestable(SigOf(w))
  {
    hide Backed, CallOf;
    if w.Hot? {
      StoredCallIsTheSame(w.sig);
    }
  }

  lemma AttestedIsOk(rows: map<nat, Row>, sends: seq<Sent>, w: Worker, answer: Answer)
    requires WorkerOk(rows, sends, w) && Busy(w) && w.phase.Attesting? && AnswerFits(w.phase, answer) && !w.Grading?
    ensures var (sent, after) := Attest(w, answer);
            WorkerOk(rows, sends + sent, after) && forall i | 0 <= i < |sent| :: SentOk(rows, sent[i])
  {
    hide CallOf;
    CallIsTheRows(rows, sends, w);
    NextIsOk(rows, sends, w);
    var (sent, after) := Attest(w, answer);
    WorkerKept(rows, sends, rows, sent, Next(w));
    if after != Next(w) {
      var all := sends + sent;
      assert all[|sends|] == sent[0];
      assert Backed(all, IdOf(after), ToLower(answer.tx));
    }
  }

  lemma SendKeeps(s: State, w: nat, answer: Answer)
    requires Inv(s) && Enabled(s, Advance(w, answer)) && s.workers[w].phase.Attesting? && !s.workers[w].Grading?
    ensures Inv(Progress(s, w, answer))
  {
    hide WorkerOk, SentOk, OutcomeOk, Unique, Attest, Backed;
    var (sent, after) := Attest(s.workers[w], answer);
    AttestedIsOk(s.rows, s.sends, s.workers[w], answer);
    PastKept(s, s.rows, sent);
    var mid := s.(sends := s.sends + sent);
    forall i | 0 <= i < |mid.sends|
      ensures SentOk(s.rows, mid.sends[i])
    {
      assert mid.sends[i] == if i < |s.sends| then s.sends[i] else sent[i - |s.sends|];
    }
    ReplacedWorkerKeeps(mid, w, after);
  }

  lemma GradingKeeps(s: State, w: nat, answer: Answer)
    requires Inv(s) && Enabled(s, Advance(w, answer)) && s.workers[w].Grading?
    ensures Inv(Progress(s, w, answer))
  {
    hide SentOk, RowOk, Unique, Backed, CallOf;
    var worker := s.workers[w];
    assert WorkerOk(s.rows, s.sends, worker);
    CallIsTheRows(s.rows, s.sends, worker);
    NextIsOk(s.rows, s.sends, worker);
    ReplacedWorkerKeeps(s, w, Next(worker));
  }

  lemma AfterPersistIsOk(rows: map<nat, Row>, sends: seq<Sent>, w: Worker, answer: Answer)
    requires WorkerOk(rows, sends, w) && Busy(w) && w.phase.Persisting? && answer.Written?
    ensures WorkerOk(rows, sends, AfterPersist(w, answer))
    ensures Backed(sends, IdOf(w), ToLower(w.phase.tx))
  {
  }

  lemma WriteKeeps(s: State, w: nat, answer: Answer)
    requires Inv(s) && Enabled(s, Advance(w, answer)) && (s.workers[w].phase.Persisting? || s.workers[w].phase.Marking?)
    requires !s.workers[w].Grading?
    ensures Inv(Progress(s, w, answer))
  {
    hide WorkerOk, SentOk, OutcomeOk, Unique, Backed, AfterPersist, Inv;
    assert Inv(s);
    var worker := s.workers[w];
    var id := IdOf(worker);
    InvAt(s, w, id);
    var after := if worker.phase.Persisting? then AfterPersist(worker, answer) else Next(worker);
    if worker.phase.Persisting? {
      AfterPersistIsOk(s.rows, s.sends, worker, answer);
    } else {
      NextIsOk(s.rows, s.sends, worker);
    }
    var mid := s.(workers := s.workers[w := after]);
    ReplacedWorkerKeeps(s, w, after);
    if answer.applied {
      var r := if worker.phase.Persisting? then s.rows[id].(attestTx := ToLower(worker.phase.tx))
               else s.rows[id].(status := "submitted");
      UpdateKeeps(mid, id, r);
    }
  }

  lemma InvAt(s: State, w: nat, id: nat)
    requires Inv(s)
    ensures w < |s.workers| ==> WorkerOk(s.rows, s.sends, s.workers[w])
    ensures id in s.rows ==> RowOk(s.sends, id, s.rows[id])
  {
  }

  lemma StepKeepsInv(s: State, a: Action)
    requires Inv(s) && Enabled(s, a)
    ensures Inv(Step(s, a))
  {
    hide Inv, WorkerOk, RowOk, Inserted, Progress;
    match a
    case Insert(sig, payload) => InsertKeeps(s, sig, payload);
    case StartRecovery(limit) =>
      var w := Recovery(Newest(s.rows, s.nextId, limit), 0, Attesting);
      SnapshotIsOk(s.rows, s.sends, w);
      NewWorkerKeeps(s, w);
    case StartGrading(id) =>
      GradingIsOk(s.rows, s.sends, id);
      NewWorkerKeeps(s, Grading(id, s.rows[id].sig, Attesting));
    case Advance(w, answer) => AdvanceKeeps(s, w, answer);
    case Fold(id, payload) => ColumnKeeps(s, id, s.rows[id].(payload := payload));
    case SetNote(id, note) => ColumnKeeps(s, id, s.rows[id].(note := note));
    case SetStatus(id, status) => ColumnKeeps(s, id, s.rows[id].(status := status));
    case Stop(w) => FewerWorkersKeep(s, w);
    case Crash => NoWorkersKeep(s);
  }

  lemma NoWorkersKeep(s: State)
    requires Inv(s)
    ensures Inv(s.(workers := []))
  {
  }

  lemma ColumnKeeps(s: State, id: nat, r: Row)
    requires Inv(s) && id in s.rows && r.sig == s.rows[id].sig && r.attestTx == s.rows[id].attestTx
    ensures Inv(s.(rows := s.rows[id := r]))
  {
    hide Inv, Backed;
    InvAt(s, 0, id);
    UpdateKeeps(s, id, r);
  }

  lemma SnapshotIsOk(rows: map<nat, Row>, sends: seq<Sent>, w: Worker)
    requires w.Recovery? && w.phase == Attesting
    requires forall k | 0 <= k < |w.snapshot| :: w.snapshot[k].0 in rows && w.snapshot[k].1 == rows[w.snapshot[k].0]
    ensures WorkerOk(rows, sends, w)
  {
  }

  lemma GradingIsOk(rows: map<nat, Row>, sends: seq<Sent>, id: nat)
    requires id in rows
    ensures WorkerOk(rows, sends, Grading(id, rows[id].sig, Attesting))
  {
  }

  lemma AdvanceKeeps(s: State, w: nat, answer: Answer)
    requires Inv(s) && Enabled(s, Advance(w, answer))
    ensures Inv(Progress(s, w, answer))
  {
    hide Inv, Progress;
    if s.workers[w].Grading? {
      GradingKeeps(s, w, answer);
    } else if s.workers[w].phase.Attesting? {
      SendKeeps(s, w, answer);
    } else {
      WriteKeeps(s, w, answer);
    }
  }

  lemma {:induction false} RunKeepsInv(s: State, acts: seq<Action>)
    requires Inv(s)
    ensures Inv(Run(s, acts))
  {
    hide Inv, Step, Enabled;
    if acts != [] {
      RunKeepsInv(s, acts[..|acts| - 1]);
      if Enabled(Run(s, acts[..|acts| - 1]), acts[|acts| - 1]) {
        StepKeepsInv(Run(s, acts[..|acts| - 1]), acts[|acts| - 1]);
      }
    }
  }

  // ---------- What holds over every run ----------

  /** Over every interleaving of the hot path, recovery passes, folds, note and status writes, retries and crashes:
      all broadcasts for one signal carry the same call, and never one with a type outside [1, 255]; a recorded
      transaction is one an accepted send for that very signal returned; recovery never sends for a row it read as
      attested; and an outcome is committed under the hash its signal is attested with. */
  lemma AttestationsAgree(acts: seq<Action>)
    ensures var s := Run(START, acts);
            && (forall i | 0 <= i < |s.sends| ::
                  s.sends[i].id in s.rows && s.sends[i].call == CallOf(s.rows[s.sends[i].id].sig))
            && (forall i, j | 0 <= i < |s.sends| && 0 <= j < |s.sends| && s.sends[i].id == s.sends[j].id ::
                  s.sends[i].call == s.sends[j].call)
            && (forall i | 0 <= i < |s.sends| :: 1 <= s.sends[i].call.signalType <= 255 && s.sends[i].readTx == "")
            && (forall id <- s.rows | s.rows[id].attestTx != "" :: Backed(s.sends, id, s.rows[id].attestTx))
            && (forall i, j | 0 <= i < |s.sends| && 0 <= j < |s.outcomes| && s.sends[i].id == s.outcomes[j].0 ::
                  s.sends[i].call.preimage == s.outcomes[j].1)
  {
    hide WorkerOk, Backed, Unique, Step, Enabled, Run;
    StartIsOk();
    RunKeepsInv(START, acts);
  }

  lemma StartIsOk()
    ensures Inv(START)
  {
  }

  /** And what they carry is their row's: its type, its pool in lower case, its z-score as the score; the hashed string
      reads back as its pool, type, reference (or metric, without one), that same score and its time. So does the string
      an outcome is committed under. */
  lemma BroadcastsCarryTheirRow(acts: seq<Action>)
    ensures var s := Run(START, acts);
            && (forall i | 0 <= i < |s.sends| ::
                  s.sends[i].id in s.rows && Carries(s.sends[i].call, s.rows[s.sends[i].id].sig))
            && (forall i | 0 <= i < |s.outcomes| ::
                  s.outcomes[i].0 in s.rows && Reads(s.outcomes[i].1, s.rows[s.outcomes[i].0].sig))
  {
    hide WorkerOk, Backed, Unique, Step, Enabled, Run, CallOf, Carries, Reads;
    StartIsOk();
    RunKeepsInv(START, acts);
    var s := Run(START, acts);
    forall i | 0 <= i < |s.sends|
      ensures s.sends[i].id in s.rows && Carries(s.sends[i].call, s.rows[s.sends[i].id].sig)
    {
      assert SentOk(s.rows, s.sends[i]);
      CallCarries(s.rows[s.sends[i].id].sig);
    }
    forall i | 0 <= i < |s.outcomes|
      ensures s.outcomes[i].0 in s.rows && Reads(s.outcomes[i].1, s.rows[s.outcomes[i].0].sig)
    {
      assert OutcomeOk(s.rows, s.outcomes[i]);
      CallCarries(s.rows[s.outcomes[i].0].sig);
    }
  }

  ghost predicate Reads(text: string, sig: Signal) {
    var c := C.Decode(text);
    && c.Some? && c.value.pool == ToLower(sig.pool) && c.value.signalType == sig.signalType
    && c.value.score == C.ScoreFromZ(sig.zscore) && c.value.ts == sig.ts
    && (sig.eventRef != "" ==> c.value.key == C.Ref(sig.eventRef))
    && (sig.eventRef == "" ==> c.value.key == C.Metric(sig.metric))
  }

  ghost predicate Carries(call: Call, sig: Signal) {
    && call.signalType == sig.signalType && call.subject == ToLower(sig.pool)
    && call.score == C.ScoreFromZ(sig.zscore)
    && Reads(call.preimage, sig)
  }

  lemma CallCarries(sig: Signal)
    ensures Carries(CallOf(sig), sig) && Reads(CallOf(sig).preimage, sig)
  {
    hide C.Encode, C.Decode, C.ScoreFromZ, ToLower;
    C.DecodeInvertsEncode(CanonOf(sig));
  }

  /** And a hash names its signal: two broadcasts share one exactly when they are of one row, or of two bucket signals
      without a bucket time, which the unique key does not cover, that nothing else tells apart. */
  lemma HashNamesTheSignal(acts: seq<Action>, i: nat, j: nat)
    requires i < |Run(START, acts).sends| && j < |Run(START, acts).sends|
    ensures var s := Run(START, acts);
            var a, b := s.sends[i], s.sends[j];
            && a.id in s.rows && b.id in s.rows
            && (a.call.preimage == b.call.preimage <==> a.id == b.id || Twins(s.rows[a.id].sig, s.rows[b.id].sig))
  {
    hide WorkerOk, Backed, Step, Enabled, Run, Conflict, CallOf, Twins;
    StartIsOk();
    RunKeepsInv(START, acts);
    var s := Run(START, acts);
    var a, b := s.sends[i], s.sends[j];
    assert SentOk(s.rows, a) && SentOk(s.rows, b);
    SameCallIff(s.rows[a.id].sig, s.rows[b.id].sig);
  }

  // ---------- When a signal is not sent again ----------

  /** How many broadcasts there were for one signal. */
  function SendCount(sends: seq<Sent>, id: nat): nat {
    if sends == [] then 0 else SendCount(sends[..|sends| - 1], id) + if sends[|sends| - 1].id == id then 1 else 0
  }

  /** The worker read the row as unattested and has its turn for it still to come. */
  predicate Holds(w: Worker, id: nat) {
    match w
    case Hot(i, _, phase) => i == id && phase.Attesting?
    case Grading(_, _, _) => false
    case Recovery(snapshot, next, phase) =>
      phase != Done && exists k | next <= k < |snapshot| :: HoldsAt(w, id, k)
  }

  predicate HoldsAt(w: Worker, id: nat, k: nat)
    requires w.Recovery? && w.next <= k < |w.snapshot|
  {
    w.snapshot[k].0 == id && w.snapshot[k].1.attestTx == "" && (k == w.next ==> w.phase.Attesting?)
  }

  /** More than `scan` rows are the row's own or newer. */
  predicate OutOfReach(s: State, id: nat, scan: nat) {
    s.nextId > id + scan
  }

  /** Nobody still holds the row unattested, and it is recorded or too old for a pass over `scan` rows to see. */
  predicate Settled(s: State, id: nat, scan: nat) {
    && id in s.rows && (s.rows[id].attestTx != "" || OutOfReach(s, id, scan))
    && forall i | 0 <= i < |s.workers| :: !Holds(s.workers[i], id)
  }

  /** Every recovery pass looks at no more than `scan` rows. */
  predicate Within(acts: seq<Action>, scan: nat) {
    forall i | 0 <= i < |acts| && acts[i].StartRecovery? :: acts[i].limit <= scan
  }

  /** No continuation with such passes sends it again. */
  ghost predicate NeverSentAgain(s: State, id: nat, scan: nat) {
    forall acts: seq<Action> | Within(acts, scan) :: SendCount(Run(s, acts).sends, id) == SendCount(s.sends, id)
  }

  lemma SendCountAppend(sends: seq<Sent>, x: Sent, id: nat)
    ensures SendCount(sends + [x], id) == SendCount(sends, id) + if x.id == id then 1 else 0
  {
    assert (sends + [x])[..|sends|] == sends;
  }

  lemma NextHoldsNoMore(w: Worker, id: nat)
    requires Busy(w) && !Holds(w, id)
    ensures !Holds(Next(w), id)
  {
    if w.Recovery? {
      var y := Next(w);
      forall k | y.next <= k < |y.snapshot|
        ensures !HoldsAt(y, id, k)
      {
        assert !HoldsAt(w, id, k);
      }
    }
  }

  /** A worker that does not hold the row neither sends for it nor comes to hold it. */
  lemma AttestsOthers(w: Worker, answer: Answer, id: nat)
    requires Busy(w) && w.phase.Attesting? && !w.Grading? && !Holds(w, id)
    ensures var (sent, after) := Attest(w, answer);
            !Holds(after, id) && |sent| <= 1 && forall i | 0 <= i < |sent| :: sent[i].id != id
  {
    hide CallOf, Attestable;
    NextHoldsNoMore(w, id);
    if w.Recovery? {
      assert !HoldsAt(w, id, w.next);
      var y := In(w, Persisting(if answer.SendAccepted? then answer.tx else "", 1));
      forall k | y.next <= k < |y.snapshot|
        ensures !HoldsAt(y, id, k)
      {
        assert !HoldsAt(w, id, k);
      }
    }
  }

  lemma PersistHoldsNoMore(w: Worker, answer: Answer, id: nat)
    requires Busy(w) && w.phase.Persisting? && answer.Written? && !Holds(w, id)
    ensures !Holds(AfterPersist(w, answer), id)
  {
    if w.Recovery? {
      var y := AfterPersist(w, answer);
      forall k | y.next <= k < |y.snapshot|
        ensures !HoldsAt(y, id, k)
      {
        assert !HoldsAt(w, id, k);
      }
    }
  }

  lemma LowerIsNotEmpty(tx: string)
    requires tx != ""
    ensures ToLower(tx) != ""
  {
  }

  lemma ProgressSettled(s: State, w: nat, answer: Answer, id: nat, scan: nat)
    requires Inv(s) && Settled(s, id, scan) && Enabled(s, Advance(w, answer))
    ensures var t := Progress(s, w, answer); Settled(t, id, scan) && SendCount(t.sends, id) == SendCount(s.sends, id)
  {
    hide Inv, CallOf, Holds, Attest, AfterPersist, SendCount, ToLower, RowOk;
    var worker := s.workers[w];
    InvAt(s, w, id);
    if worker.phase.Attesting? && worker.Grading? {
      NextHoldsNoMore(worker, id);
    } else if worker.phase.Attesting? {
      AttestsOthers(worker, answer, id);
      var (sent, _) := Attest(worker, answer);
      if sent != [] {
        SendCountAppend(s.sends, sent[0], id);
        assert sent == [sent[0]];
      } else {
        assert s.sends + sent == s.sends;
      }
    } else if worker.phase.Persisting? {
      PersistHoldsNoMore(worker, answer, id);
      LowerIsNotEmpty(worker.phase.tx);
    } else {
      NextHoldsNoMore(worker, id);
    }
  }

  /** A new pass does not hold a row that is recorded or beyond its limit. */
  lemma NewPassHoldsNot(s: State, limit: nat, id: nat)
    requires Dense(s.rows, s.nextId) && id in s.rows && (s.rows[id].attestTx != "" || OutOfReach(s, id, limit))
    ensures !Holds(Recovery(Newest(s.rows, s.nextId, limit), 0, Attesting), id)
  {
    var w := Recovery(Newest(s.rows, s.nextId, limit), 0, Attesting);
    assert forall k | 0 <= k < |w.snapshot| :: !HoldsAt(w, id, k);
  }

  lemma StepSettled(s: State, a: Action, id: nat, scan: nat)
    requires Inv(s) && Settled(s, id, scan) && Enabled(s, a) && (a.StartRecovery? ==> a.limit <= scan)
    ensures var t := Step(s, a); Settled(t, id, scan) && SendCount(t.sends, id) == SendCount(s.sends, id)
  {
    hide CallOf, Progress, SendCount, Conflict, RowOk, WorkerOk, Newest;
    match a
    case Advance(w, answer) => ProgressSettled(s, w, answer, id, scan);
    case StartRecovery(limit) => NewPassHoldsNot(s, limit, id);
    case Stop(i) =>
      var t := Step(s, a);
      assert forall k | 0 <= k < |t.workers| :: t.workers[k] == s.workers[if k < i then k else k + 1];
    case _ =>
  }

  lemma {:induction false} RunSettled(s: State, acts: seq<Action>, id: nat, scan: nat)
    requires Inv(s) && Settled(s, id, scan) && Within(acts, scan)
    ensures Settled(Run(s, acts), id, scan) && SendCount(Run(s, acts).sends, id) == SendCount(s.sends, id)
  {
    hide Inv, Step, Enabled, Settled, SendCount;
    if acts != [] {
      var before := acts[..|acts| - 1];
      RunSettled(s, before, id, scan);
      RunKeepsInv(s, before);
      if Enabled(Run(s, before), acts[|acts| - 1]) {
        StepSettled(Run(s, before), acts[|acts| - 1], id, scan);
      }
    }
  }

  // ---------- And when it can be ----------

  lemma RunStep(s: State, a: Action)
    ensures Run(s, [a]) == if Enabled(s, a) then Step(s, a) else s
  {
    assert [a][..0] == [];
    assert Run(s, []) == s;
  }

  lemma {:induction false} RunConcat(s: State, a: seq<Action>, b: seq<Action>)
    ensures Run(s, a + b) == Run(Run(s, a), b)
    decreases |b|
  {
    hide Step, Enabled;
    if b == [] {
      assert a + b == a;
    } else {
      assert (a + b)[..|a + b| - 1] == a + b[..|b| - 1];
      RunConcat(s, a, b[..|b| - 1]);
    }
  }

  /** A worker on a row it read as unattested sends for it, whatever the node then answers. */
  lemma OnItSends(s: State, w: nat, id: nat)
    requires Inv(s) && w < |s.workers| && Busy(s.workers[w]) && IdOf(s.workers[w]) == id && !s.workers[w].Grading?
    requires s.workers[w].phase.Attesting? && ReadTx(s.workers[w]) == "" && id in s.rows && Attestable(s.rows[id].sig)
    ensures SendCount(Run(s, [Advance(w, SendFailed)]).sends, id) == SendCount(s.sends, id) + 1
  {
    hide CallOf, Run, Attestable, WorkerOk, SendCount;
    var worker := s.workers[w];
    InvAt(s, w, id);
    CallIsTheRows(s.rows, s.sends, worker);
    RunStep(s, Advance(w, SendFailed));
    SendCountAppend(s.sends, Sent(id, CallOf(SigOf(worker)), "", ReadTx(worker)), id);
  }

  /** What gets a recovery pass past the row it is on, sending nothing. */
  function Skip(w: Worker): Answer
  {
    if w.phase.Attesting? then NotSent else Written(true, true)
  }

  lemma SkipSendsNothing(s: State, w: nat)
    requires Inv(s) && w < |s.workers| && s.workers[w].Recovery? && Busy(s.workers[w])
    ensures Enabled(s, Advance(w, Skip(s.workers[w])))
    ensures var t := Step(s, Advance(w, Skip(s.workers[w])));
            && t.sends == s.sends && |t.workers| == |s.workers| && t.workers[w].Recovery?
            && t.workers[w].snapshot == s.workers[w].snapshot
            && t.workers[w]
                == (if s.workers[w].phase.Persisting? then In(s.workers[w], Marking) else Next(s.workers[w]))
  {
    hide CallOf, RowOk;
    InvAt(s, w, 0);
    var (id, row) := s.workers[w].snapshot[s.workers[w].next];
    assert SameSignal(s.rows, id, row.sig);
    assert s.sends + [] == s.sends;
  }

  function StepsTo(w: Worker, k: nat): nat
    requires w.Recovery? && w.next <= k
  {
    3 * (k - w.next) + if w.phase.Persisting? then 2 else if w.phase.Attesting? then 0 else 1
  }

  /** A recovery pass reaches every entry of its snapshot without having to send for the ones before. */
  lemma {:induction false} PassGetsThere(s: State, w: nat, k: nat) returns (acts: seq<Action>)
    requires Inv(s) && w < |s.workers| && s.workers[w].Recovery? && s.workers[w].phase != Done
    requires s.workers[w].next <= k < |s.workers[w].snapshot|
    requires k == s.workers[w].next ==> s.workers[w].phase.Attesting?
    ensures var t := Run(s, acts);
            && Inv(t) && t.sends == s.sends && w < |t.workers|
            && t.workers[w] == Recovery(s.workers[w].snapshot, k, Attesting)
    ensures Within(acts, 0)
    decreases StepsTo(s.workers[w], k)
  {
    hide Inv, Run, Enabled;
    var worker := s.workers[w];
    if worker.next == k {
      acts := [];
      assert Run(s, []) == s by {
        RunNothing(s, []);
      }
    } else {
      var a := Advance(w, Skip(worker));
      SkipSendsNothing(s, w);
      StepKeepsInv(s, a);
      RunStep(s, a);
      var rest := PassGetsThere(Step(s, a), w, k);
      acts := [a] + rest;
      RunConcat(s, [a], rest);
    }
  }

  /** Whoever holds an attestable row can send for it. */
  lemma HolderSends(s: State, w: nat, id: nat) returns (acts: seq<Action>)
    requires Inv(s) && w < |s.workers| && Holds(s.workers[w], id) && id in s.rows && Attestable(s.rows[id].sig)
    ensures SendCount(Run(s, acts).sends, id) == SendCount(s.sends, id) + 1 && Within(acts, 0)
  {
    hide Inv, Run, Attestable, SendCount;
    var worker := s.workers[w];
    if worker.Hot? {
      OnItSends(s, w, id);
      acts := [Advance(w, SendFailed)];
    } else {
      var k :| worker.next <= k < |worker.snapshot| && HoldsAt(worker, id, k);
      var before := PassGetsThere(s, w, k);
      RunKeepsRows(s, before, id);
      OnItSends(Run(s, before), w, id);
      acts := before + [Advance(w, SendFailed)];
      RunConcat(s, before, [Advance(w, SendFailed)]);
    }
  }

  lemma StepKeepsRows(s: State, a: Action, id: nat)
    requires Inv(s) && Enabled(s, a) && id in s.rows
    ensures id in Step(s, a).rows && Step(s, a).rows[id].sig == s.rows[id].sig
  {
    hide RowOk, WorkerOk, CallOf, Conflict;
  }

  lemma {:induction false} RunKeepsRows(s: State, acts: seq<Action>, id: nat)
    requires Inv(s) && id in s.rows
    ensures id in Run(s, acts).rows && Run(s, acts).rows[id].sig == s.rows[id].sig
  {
    hide Inv, Step, Enabled;
    if acts != [] {
      var before := acts[..|acts| - 1];
      RunKeepsRows(s, before, id);
      RunKeepsInv(s, before);
      if Enabled(Run(s, before), acts[|acts| - 1]) {
        StepKeepsRows(Run(s, before), acts[|acts| - 1], id);
      }
    }
  }

  /** A new recovery pass holds an unrecorded row it can see. */
  lemma NewPassHolds(s: State, limit: nat, id: nat)
    requires Dense(s.rows, s.nextId) && id < s.nextId && s.rows[id].attestTx == "" && !OutOfReach(s, id, limit)
    ensures Holds(Recovery(Newest(s.rows, s.nextId, limit), 0, Attesting), id)
  {
    assert HoldsAt(Recovery(Newest(s.rows, s.nextId, limit), 0, Attesting), id, s.nextId - 1 - id);
  }

  lemma PassStarts(s: State, limit: nat, id: nat)
    requires Inv(s) && limit <= CLI_SCAN && id in s.rows && s.rows[id].attestTx == "" && !OutOfReach(s, id, limit)
    ensures var t := Run(s, [StartRecovery(limit)]);
            && Inv(t) && t.rows == s.rows && t.sends == s.sends
            && |t.workers| == |s.workers| + 1 && Holds(t.workers[|s.workers|], id)
  {
    hide Inv, Newest, Holds;
    InvIsDense(s, id);
    RunStep(s, StartRecovery(limit));
    StepKeepsInv(s, StartRecovery(limit));
    NewPassHolds(s, limit, id);
  }

  lemma InvIsDense(s: State, id: nat)
    requires Inv(s)
    ensures Dense(s.rows, s.nextId) && (id in s.rows <==> id < s.nextId)
  {
  }

  lemma UnrecordedIsSent(s: State, id: nat, scan: nat) returns (acts: seq<Action>)
    requires Inv(s) && id in s.rows && s.rows[id].attestTx == "" && Attestable(s.rows[id].sig)
    requires scan <= CLI_SCAN && !OutOfReach(s, id, scan)
    ensures SendCount(Run(s, acts).sends, id) == SendCount(s.sends, id) + 1 && Within(acts, scan)
  {
    hide Inv, Run, Attestable, SendCount, Holds;
    PassStarts(s, scan, id);
    var rest := HolderSends(Run(s, [StartRecovery(scan)]), |s.workers|, id);
    acts := [StartRecovery(scan)] + rest;
    RunConcat(s, [StartRecovery(scan)], rest);
  }

  /** Over every reachable state, with passes over at most `scan` rows: an attestable signal is never broadcast again,
      whatever happens, exactly when no process still holds the row as unattested (a hot path before its send, or a
      recovery pass whose snapshot has the row, read empty, still ahead) and it is recorded or has at least `scan` newer
      rows. With LOOP_SCAN this is the supervisor alone, with CLI_SCAN every process there is. */
  lemma NeverSentAgainIff(before: seq<Action>, id: nat, scan: nat)
    requires scan <= 10000
    ensures var s := Run(START, before);
            id in s.rows && 1 <= s.rows[id].sig.signalType <= 255 ==>
              (NeverSentAgain(s, id, scan) <==> Settled(s, id, scan))
  {
    hide Inv, Run, SendCount;
    var s := Run(START, before);
    StartIsOk();
    RunKeepsInv(START, before);
    if id in s.rows && Attestable(s.rows[id].sig) {
      if Settled(s, id, scan) {
        forall acts: seq<Action> | Within(acts, scan)
          ensures SendCount(Run(s, acts).sends, id) == SendCount(s.sends, id)
        {
          RunSettled(s, acts, id, scan);
        }
      } else if exists w | 0 <= w < |s.workers| :: Holds(s.workers[w], id) {
        var w :| 0 <= w < |s.workers| && Holds(s.workers[w], id);
        var acts := HolderSends(s, w, id);
        assert Within(acts, scan) && SendCount(Run(s, acts).sends, id) != SendCount(s.sends, id);
      } else {
        var acts := UnrecordedIsSent(s, id, scan);
        assert Within(acts, scan) && SendCount(Run(s, acts).sends, id) != SendCount(s.sends, id);
      }
    }
  }

  // ---------- When a signal can still be recorded ----------

  /** The worker has an accepted send for the row and its hash still to write. */
  predicate Writes(w: Worker, id: nat) {
    Busy(w) && w.phase.Persisting? && IdOf(w) == id
  }

  /** Unrecorded, out of every pass's sight, and in nobody's hands. */
  predicate Lost(s: State, id: nat, scan: nat) {
    && id in s.rows && s.rows[id].attestTx == "" && OutOfReach(s, id, scan)
    && forall i | 0 <= i < |s.workers| :: !Holds(s.workers[i], id) && !Writes(s.workers[i], id)
  }

  ghost predicate CanBeRecorded(s: State, id: nat, scan: nat) {
    exists acts: seq<Action> | Within(acts, scan) :: id in Run(s, acts).rows && Run(s, acts).rows[id].attestTx != ""
  }

  /** Who starts to write a row's hash held the row. */
  lemma WritersHeld(w: Worker, answer: Answer, id: nat)
    requires Busy(w) && w.phase.Attesting? && !w.Grading? && !Holds(w, id)
    ensures !Writes(Attest(w, answer).1, id)
  {
    hide CallOf, Attestable;
    if w.Recovery? {
      assert !HoldsAt(w, id, w.next);
    }
  }

  lemma ProgressLost(s: State, w: nat, answer: Answer, id: nat, scan: nat)
    requires Inv(s) && Lost(s, id, scan) && Enabled(s, Advance(w, answer))
    ensures Lost(Progress(s, w, answer), id, scan)
  {
    hide Inv, CallOf, Holds, Attest, SendCount, ToLower, RowOk;
    var worker := s.workers[w];
    InvAt(s, w, id);
    if worker.phase.Attesting? && worker.Grading? {
      NextHoldsNoMore(worker, id);
    } else if worker.phase.Attesting? {
      AttestsOthers(worker, answer, id);
      WritersHeld(worker, answer, id);
    } else if worker.phase.Persisting? {
      PersistHoldsNoMore(worker, answer, id);
    } else {
      NextHoldsNoMore(worker, id);
    }
  }

  lemma StepLost(s: State, a: Action, id: nat, scan: nat)
    requires Inv(s) && Lost(s, id, scan) && Enabled(s, a) && (a.StartRecovery? ==> a.limit <= scan)
    ensures Lost(Step(s, a), id, scan)
  {
    hide CallOf, Progress, Conflict, RowOk, WorkerOk, Newest;
    match a
    case Advance(w, answer) => ProgressLost(s, w, answer, id, scan);
    case StartRecovery(limit) => NewPassHoldsNot(s, limit, id);
    case Stop(i) =>
      var t := Step(s, a);
      assert forall k | 0 <= k < |t.workers| :: t.workers[k] == s.workers[if k < i then k else k + 1];
    case _ =>
  }

  lemma {:induction false} RunLost(s: State, acts: seq<Action>, id: nat, scan: nat)
    requires Inv(s) && Lost(s, id, scan) && Within(acts, scan)
    ensures Lost(Run(s, acts), id, scan)
  {
    hide Inv, Step, Enabled, Lost;
    if acts != [] {
      var before := acts[..|acts| - 1];
      RunLost(s, before, id, scan);
      RunKeepsInv(s, before);
      if Enabled(Run(s, before), acts[|acts| - 1]) {
        StepLost(Run(s, before), acts[|acts| - 1], id, scan);
      }
    }
  }

  /** A writer records. */
  lemma WriterRecords(s: State, w: nat, id: nat)
    requires Inv(s) && w < |s.workers| && Writes(s.workers[w], id)
    ensures var t := Run(s, [Advance(w, Written(true, true))]); id in t.rows && t.rows[id].attestTx != ""
  {
    hide CallOf, Run, RowOk, ToLower;
    InvAt(s, w, id);
    WriterIsKnown(s.rows, s.sends, s.workers[w]);
    RunStep(s, Advance(w, Written(true, true)));
    LowerIsNotEmpty(s.workers[w].phase.tx);
  }

  lemma WriterIsKnown(rows: map<nat, Row>, sends: seq<Sent>, w: Worker)
    requires WorkerOk(rows, sends, w) && Busy(w)
    ensures IdOf(w) in rows && (w.phase.Persisting? ==> !w.Grading? && w.phase.tx != "")
  {
  }

  /** A worker on a row it read as unattested gets its send accepted, and then writes. */
  lemma OnItGetsAccepted(s: State, w: nat, id: nat)
    requires Inv(s) && w < |s.workers| && Busy(s.workers[w]) && IdOf(s.workers[w]) == id && !s.workers[w].Grading?
    requires s.workers[w].phase.Attesting? && ReadTx(s.workers[w]) == "" && id in s.rows && Attestable(s.rows[id].sig)
    ensures var t := Run(s, [Advance(w, SendAccepted("0x1"))]);
            Inv(t) && w < |t.workers| && Writes(t.workers[w], id)
  {
    hide CallOf, Run, Attestable, WorkerOk;
    var a := Advance(w, SendAccepted("0x1"));
    InvAt(s, w, id);
    CallIsTheRows(s.rows, s.sends, s.workers[w]);
    RunStep(s, a);
    StepKeepsInv(s, a);
  }

  /** Whoever holds an attestable row can get it recorded. */
  lemma HolderRecords(s: State, w: nat, id: nat) returns (acts: seq<Action>)
    requires Inv(s) && w < |s.workers| && Holds(s.workers[w], id) && id in s.rows && Attestable(s.rows[id].sig)
    ensures Within(acts, 0) && id in Run(s, acts).rows && Run(s, acts).rows[id].attestTx != ""
  {
    hide Inv, Run, Attestable, Writes;
    var worker, before := s.workers[w], [];
    RunNothing(s, []);
    if worker.Recovery? {
      var k :| worker.next <= k < |worker.snapshot| && HoldsAt(worker, id, k);
      before := PassGetsThere(s, w, k);
      RunKeepsRows(s, before, id);
    }
    var send, write := [Advance(w, SendAccepted("0x1"))], [Advance(w, Written(true, true))];
    OnItGetsAccepted(Run(s, before), w, id);
    WriterRecords(Run(Run(s, before), send), w, id);
    acts := (before + send) + write;
    RunConcat(s, before, send);
    RunConcat(s, before + send, write);
  }

  lemma UnrecordedIsRecorded(s: State, id: nat, scan: nat) returns (acts: seq<Action>)
    requires Inv(s) && id in s.rows && s.rows[id].attestTx == "" && Attestable(s.rows[id].sig)
    requires scan <= CLI_SCAN && !OutOfReach(s, id, scan)
    ensures Within(acts, scan) && id in Run(s, acts).rows && Run(s, acts).rows[id].attestTx != ""
  {
    hide Inv, Run, Attestable, Holds;
    PassStarts(s, scan, id);
    var rest := HolderRecords(Run(s, [StartRecovery(scan)]), |s.workers|, id);
    acts := [StartRecovery(scan)] + rest;
    RunConcat(s, [StartRecovery(scan)], rest);
  }

  /** Over every reachable state: an attestable row can still come to be recorded exactly when it is, or fewer than
      `scan` rows are newer, or some process holds it or has its hash to write. A failed attestation that `scan` newer
      rows have pushed out of the window is never made up for. */
  lemma CanBeRecordedIff(before: seq<Action>, id: nat, scan: nat)
    requires scan <= 10000
    ensures var s := Run(START, before);
            id in s.rows && 1 <= s.rows[id].sig.signalType <= 255 ==>
              (CanBeRecorded(s, id, scan) <==> !Lost(s, id, scan))
  {
    hide Inv, Run, Holds, Writes;
    var s := Run(START, before);
    StartIsOk();
    RunKeepsInv(START, before);
    if id in s.rows && Attestable(s.rows[id].sig) {
      if Lost(s, id, scan) {
        forall acts: seq<Action> | Within(acts, scan)
          ensures id in Run(s, acts).rows && Run(s, acts).rows[id].attestTx == ""
        {
          RunLost(s, acts, id, scan);
        }
      } else if s.rows[id].attestTx != "" {
        RunNothing(s, []);
        assert Within([], scan) && Run(s, []) == s;
      } else if !OutOfReach(s, id, scan) {
        var acts := UnrecordedIsRecorded(s, id, scan);
        assert Within(acts, scan);
      } else if exists w | 0 <= w < |s.workers| :: Holds(s.workers[w], id) {
        var w :| 0 <= w < |s.workers| && Holds(s.workers[w], id);
        var acts := HolderRecords(s, w, id);
        assert Within(acts, scan);
      } else {
        var w :| 0 <= w < |s.workers| && Writes(s.workers[w], id);
        WriterRecords(s, w, id);
        assert Within([Advance(w, Written(true, true))], scan);
      }
    }
  }

  /** So exactly-once does not hold: recovery can read a row the hot path is about to record, and both send. */
  const HANDOVER: seq<Action> := [
    Insert(HANDOVER_SIGNAL, ""),
    StartRecovery(LOOP_SCAN),
    Advance(0, SendAccepted("0x1")),
    Advance(0, Written(true, true)),
    Advance(1, SendAccepted("0x2")),
    Advance(1, Written(true, true))
  ]

  lemma RunOneMore(s: State, acts: seq<Action>, n: nat)
    requires n < |acts|
    ensures var before := Run(s, acts[..n]);
            Run(s, acts[..n + 1]) == if Enabled(before, acts[n]) then Step(before, acts[n]) else before
  {
    assert acts[..n + 1][..n] == acts[..n];
  }

  const HANDOVER_SIGNAL := Signal("0xAB", 1, "vol0", "", 5.0, 600)

  /** Both processes have read the row before either sends. */
  lemma HandoverStarts()
    ensures var sig := HANDOVER_SIGNAL;
            var row := Row(Stored(sig), "", "new", "", "");
            Run(START, HANDOVER[..2])
            == State(map[0 := row], 1, [], [], [Hot(0, sig, Attesting), Recovery([(0, row)], 0, Attesting)])
  {
    hide CallOf, Run, Stored, ToLower;
    RunNothing(START, HANDOVER);
    RunOneMore(START, HANDOVER, 0);
    RunOneMore(START, HANDOVER, 1);
    var s1, row := Run(START, HANDOVER[..1]), Row(Stored(HANDOVER_SIGNAL), "", "new", "", "");
    assert s1 == State(map[0 := row], 1, [], [], [Hot(0, HANDOVER_SIGNAL, Attesting)]);
    var w := Step(s1, StartRecovery(LOOP_SCAN)).workers[1];
    assert w.snapshot == [(0, row)];
  }

  /** The hot path sends and records its transaction. */
  lemma HandoverRecords()
    ensures var sig := HANDOVER_SIGNAL;
            var row := Row(Stored(sig), "", "new", "", "");
            Run(START, HANDOVER[..4])
            == State(map[0 := row.(attestTx := ToLower("0x1"))], 1, [Sent(0, CallOf(sig), "0x1", "")], [],
                     [Hot(0, sig, Marking), Recovery([(0, row)], 0, Attesting)])
  {
    hide CallOf, Run, ToLower, Inserted;
    HandoverStarts();
    RunOneMore(START, HANDOVER, 2);
    RunOneMore(START, HANDOVER, 3);
    var sig := HANDOVER_SIGNAL;
    var snapshot := [(0, Row(Stored(sig), "", "new", "", ""))];
    var s3 := Run(START, HANDOVER[..3]);
    assert s3.workers == [Hot(0, sig, Persisting("0x1", 1)), Recovery(snapshot, 0, Attesting)];
    assert s3.sends == [Sent(0, CallOf(sig), "0x1", "")];
  }

  lemma HandoverSendsTwice()
    ensures var s := Run(START, HANDOVER);
            && |s.sends| == 2 && s.sends[0].id == s.sends[1].id == 0 && s.sends[0].call == s.sends[1].call
            && s.sends[0].tx == "0x1" && s.sends[1].tx == "0x2"
            && 0 in s.rows && s.rows[0].attestTx == ToLower("0x2")
  {
    hide CallOf, Run, ToLower, Inserted;
    HandoverRecords();
    RunOneMore(START, HANDOVER, 4);
    RunOneMore(START, HANDOVER, 5);
    var sig := HANDOVER_SIGNAL;
    var snapshot := [(0, Row(Stored(sig), "", "new", "", ""))];
    var s5 := Run(START, HANDOVER[..5]);
    assert s5.workers == [Hot(0, sig, Marking), Recovery(snapshot, 0, Persisting("0x2", 1))];
    StoredCallIsTheSame(sig);
    assert HANDOVER[..6] == HANDOVER;
  }

  lemma RunNothing(s: State, acts: seq<Action>)
    ensures Run(s, acts[..0]) == s
  {
  }
}
