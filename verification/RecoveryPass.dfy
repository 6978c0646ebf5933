/** One pass of the attestation recovery loop (cmd/ocr/main.go): what it counts, sends and records. */
module RecoveryPass {
  import opened Text
  import opened Attestation

  /** What the node and the database answer while one row is handled: the send, up to three tries at the
      attest_tx write, and the status write. */
  datatype Replies = Replies(send: Answer, writes: seq<Answer>, mark: Answer)

  predicate WriteFits(a: Answer) {
    a.Written? && (a.ok ==> a.applied)
  }

  predicate RepliesFit(r: Replies) {
    && AnswerFits(Attesting, r.send) && |r.writes| == ATTEMPTS && WriteFits(r.mark)
    && forall k | 0 <= k < |r.writes| :: WriteFits(r.writes[k])
  }

  predicate AnyApplied(writes: seq<Answer>) {
    exists k | 0 <= k < |writes| :: writes[k].Written? && writes[k].applied
  }

  predicate AnyOk(writes: seq<Answer>) {
    exists k | 0 <= k < |writes| :: writes[k].Written? && writes[k].ok
  }

  function Recorded(r: Row, tx: string, writes: seq<Answer>): Row {
    if AnyApplied(writes) then r.(attestTx := ToLower(tx)) else r
  }

  function Marked(r: Row, mark: Answer): Row {
    if mark.Written? && mark.applied then r.(status := "submitted") else r
  }

  datatype Tally = Tally(attested: nat, skipped: nat, failed: nat)

  /** The table, the broadcasts so far, and the counts. */
  datatype Sweep = Sweep(rows: map<nat, Row>, sends: seq<Sent>, tally: Tally)

  /** One row of the snapshot. */
  function OneRow(p: Sweep, id: nat, read: Row, e: Replies): Sweep
    requires id in p.rows
  {
    var t := p.tally;
    if read.attestTx != "" then p.(tally := t.(skipped := t.skipped + 1))
    else if !Attestable(read.sig) || e.send.NotSent? then p.(tally := t.(failed := t.failed + 1))
    else if e.send.SendAccepted? then
      Sweep(p.rows[id := Marked(Recorded(p.rows[id], e.send.tx, e.writes), e.mark)],
               p.sends + [Sent(id, CallOf(read.sig), e.send.tx, "")],
               t.(attested := t.attested + 1))
    else Sweep(p.rows, p.sends + [Sent(id, CallOf(read.sig), "", "")], t.(failed := t.failed + 1))
  }

  /** The first n rows of a snapshot that read the table rows0. */
  function Pass(rows0: map<nat, Row>, sends: seq<Sent>, ids: seq<nat>, env: seq<Replies>, n: nat): (p: Sweep)
    requires n <= |ids| <= |env| && forall k | 0 <= k < |ids| :: ids[k] in rows0
    ensures p.rows.Keys == rows0.Keys
  {
    if n == 0 then Sweep(rows0, sends, Tally(0, 0, 0))
    else OneRow(Pass(rows0, sends, ids, env, n - 1), ids[n - 1], rows0[ids[n - 1]], env[n - 1])
  }

  /** RecentSignals' ids: the `limit` newest, newest first. */
  function NewestIds(nextId: nat, limit: nat): (ids: seq<nat>)
    ensures |ids| == if limit < nextId then limit else nextId
    ensures forall k | 0 <= k < |ids| :: ids[k] == nextId - 1 - k
  {
    seq(if limit < nextId then limit else nextId, k requires 0 <= k < nextId => nextId - 1 - k)
  }

  /** The signals table and the node it attests through. */
  class Ledger {
    var rows: map<nat, Row>
    var nextId: nat
    var sends: seq<Sent>

    /** One UPDATE, as the database answers it. */
    method UpdateSignalAttest(id: nat, tx: string, a: Answer) returns (ok: bool)
      requires id in rows && WriteFits(a)
      modifies this`rows
      ensures ok == a.ok
      ensures rows == if a.applied then old(rows)[id := old(rows)[id].(attestTx := ToLower(tx))] else old(rows)
    {
      if a.applied {
        rows := rows[id := rows[id].(attestTx := ToLower(tx))];
      }
      ok := a.ok;
    }

    /** Retries the write at most three times; what it leaves does not depend on which try got through. */
    method PersistAttestTx(id: nat, tx: string, writes: seq<Answer>) returns (ok: bool)
      requires id in rows && |writes| == 3 && forall k | 0 <= k < |writes| :: WriteFits(writes[k])
      modifies this`rows
      ensures ok == AnyOk(writes)
      ensures rows == old(rows)[id := Recorded(old(rows)[id], tx, writes)]
    {
      ok := false;
      var attempt := 0;
      while attempt < ATTEMPTS && !ok
        invariant 0 <= attempt <= ATTEMPTS && id in rows
        invariant rows == old(rows)[id := Recorded(old(rows)[id], tx, writes[..attempt])]
        invariant ok <==> AnyOk(writes[..attempt])
      {
        ghost var before := writes[..attempt];
        Tried(writes, attempt);
        ok := UpdateSignalAttest(id, tx, writes[attempt]);
        attempt := attempt + 1;
      }
      TriedEnough(writes, attempt);
    }

    /** Over the `limit` newest rows as they are now; env holds the answers row by row. */
    method AttestPendingOnce(limit: nat, env: seq<Replies>) returns (t: Tally, total: nat)
      requires Dense(rows, nextId) && |env| == |NewestIds(nextId, limit)|
      requires forall k | 0 <= k < |env| :: RepliesFit(env[k])
      modifies this`rows, this`sends
      ensures total == |NewestIds(nextId, limit)| == t.attested + t.skipped + t.failed
      ensures Sweep(rows, sends, t) == Pass(old(rows), old(sends), NewestIds(nextId, limit), env, total)
    {
      hide CallOf, ToLower, AnyApplied, AnyOk;
      var table, ids := rows, NewestIds(nextId, limit);
      var snapshot := seq(|ids|, k requires 0 <= k < |ids| && ids[k] in table => table[ids[k]]);
      t, total := Tally(0, 0, 0), |ids|;
      for n := 0 to |ids|
        invariant Sweep(rows, sends, t) == Pass(old(rows), old(sends), ids, env, n)
        invariant n == t.attested + t.skipped + t.failed
      {
        t := AttestOne(ids[n], snapshot[n], env[n], t);
      }
    }

    /** The body of the pass. */
    method AttestOne(id: nat, read: Row, e: Replies, t: Tally) returns (t': Tally)
      requires id in rows && RepliesFit(e)
      modifies this`rows, this`sends
      ensures Sweep(rows, sends, t') == OneRow(Sweep(old(rows), old(sends), t), id, read, e)
      ensures t'.attested + t'.skipped + t'.failed == t.attested + t.skipped + t.failed + 1
    {
      hide CallOf, ToLower, AnyApplied, AnyOk;
      if read.attestTx != "" {
        return t.(skipped := t.skipped + 1);
      }
      if read.sig.signalType < 1 || read.sig.signalType > 255 {
        return t.(failed := t.failed + 1);
      }
      match e.send {
        case NotSent =>
          return t.(failed := t.failed + 1);
        case SendFailed =>
          sends := sends + [Sent(id, CallOf(read.sig), "", "")];
          return t.(failed := t.failed + 1);
        case SendAccepted(tx) =>
          sends := sends + [Sent(id, CallOf(read.sig), tx, "")];
          var _ := PersistAttestTx(id, tx, e.writes);
          if e.mark.applied {
            rows := rows[id := rows[id].(status := "submitted")];
          }
          return t.(attested := t.attested + 1);
      }
    }
  }

  lemma Tried(writes: seq<Answer>, n: nat)
    requires n < |writes| && WriteFits(writes[n])
    ensures AnyOk(writes[..n + 1]) <==> AnyOk(writes[..n]) || writes[n].ok
    ensures AnyApplied(writes[..n + 1]) <==> AnyApplied(writes[..n]) || writes[n].applied
  {
  }

  /** After a success no further try is needed: a success is applied. */
  lemma TriedEnough(writes: seq<Answer>, n: nat)
    requires n <= |writes| && (forall k | 0 <= k < |writes| :: WriteFits(writes[k]))
    requires n == |writes| || AnyOk(writes[..n])
    ensures AnyOk(writes[..n]) == AnyOk(writes) && AnyApplied(writes[..n]) == AnyApplied(writes)
  {
  }

  // ---------- What a pass does ----------

  ghost predicate Distinct(ids: seq<nat>) {
    forall i, j | 0 <= i < j < |ids| :: ids[i] != ids[j]
  }

  /** The pass reached this row with an accepted send that some write recorded. */
  predicate Delivered(read: Row, e: Replies) {
    read.attestTx == "" && Attestable(read.sig) && e.send.SendAccepted? && AnyApplied(e.writes)
  }

  lemma OneRowTouchesOne(p: Sweep, id: nat, read: Row, e: Replies, other: nat)
    requires id in p.rows && other in p.rows
    ensures var q := OneRow(p, id, read, e);
            && (other != id ==> q.rows[other] == p.rows[other])
            && q.rows[id].sig == p.rows[id].sig
            && q.rows[id].attestTx == if Delivered(read, e) then ToLower(e.send.tx) else p.rows[id].attestTx
  {
    hide CallOf, ToLower, AnyApplied;
  }

  /** Where a pass leaves each row: exactly the rows it delivered get a new attest_tx, the hash of their own send. */
  lemma {:induction false} PassRecords(rows0: map<nat, Row>, sends: seq<Sent>, ids: seq<nat>, env: seq<Replies>,
      n: nat, id: nat)
    requires n <= |ids| <= |env| && (forall k | 0 <= k < |ids| :: ids[k] in rows0) && Distinct(ids) && id in rows0
    ensures var r := Pass(rows0, sends, ids, env, n).rows[id];
            && r.sig == rows0[id].sig
            && (id !in ids[..n] ==> r == rows0[id])
            && (forall k | 0 <= k < n && ids[k] == id ::
                  r.attestTx == if Delivered(rows0[id], env[k]) then ToLower(env[k].send.tx) else rows0[id].attestTx)
  {
    hide OneRow, Delivered, ToLower;
    if n > 0 {
      PassRecords(rows0, sends, ids, env, n - 1, id);
      var p := Pass(rows0, sends, ids, env, n - 1);
      assert ids[..n] == ids[..n - 1] + [ids[n - 1]];
      OneRowTouchesOne(p, ids[n - 1], rows0[ids[n - 1]], env[n - 1], id);
      assert id == ids[n - 1] ==> id !in ids[..n - 1];
    }
  }

  /** The pass sends for the k-th row and the node accepts. */
  ghost predicate Accepts(rows0: map<nat, Row>, ids: seq<nat>, env: seq<Replies>, k: nat)
    requires k < |ids| <= |env| && ids[k] in rows0
  {
    rows0[ids[k]].attestTx == "" && 1 <= rows0[ids[k]].sig.signalType <= 255 && env[k].send.SendAccepted?
  }

  ghost function Accepted(rows0: map<nat, Row>, ids: seq<nat>, env: seq<Replies>, n: nat): set<nat>
    requires n <= |ids| <= |env| && forall k | 0 <= k < |ids| :: ids[k] in rows0
  {
    set k: nat | k < n && Accepts(rows0, ids, env, k)
  }

  /** Those it leaves alone because they were attested when it read them. */
  ghost function Attested(rows0: map<nat, Row>, ids: seq<nat>, n: nat): set<nat>
    requires n <= |ids| && forall k | 0 <= k < |ids| :: ids[k] in rows0
  {
    set k: nat | k < n && rows0[ids[k]].attestTx != ""
  }

  /** The counts a pass reports: `attested` the rows with an accepted send, `skipped` those attested before, `failed`
      all others. */
  lemma {:induction false} PassCounts(rows0: map<nat, Row>, sends: seq<Sent>, ids: seq<nat>, env: seq<Replies>, n: nat)
    requires n <= |ids| <= |env| && forall k | 0 <= k < |ids| :: ids[k] in rows0
    ensures var t := Pass(rows0, sends, ids, env, n).tally;
            && t.attested == |Accepted(rows0, ids, env, n)| && t.skipped == |Attested(rows0, ids, n)|
            && t.attested + t.skipped + t.failed == n
  {
    hide OneRow, Accepted, Attested;
    if n > 0 {
      PassCounts(rows0, sends, ids, env, n - 1);
      OneRowCounts(Pass(rows0, sends, ids, env, n - 1), ids[n - 1], rows0[ids[n - 1]], env[n - 1]);
      OneMoreCounted(rows0, ids, env, n - 1);
    } else {
      NoneCounted(rows0, ids, env);
    }
  }

  lemma OneMoreCounted(rows0: map<nat, Row>, ids: seq<nat>, env: seq<Replies>, n: nat)
    requires n < |ids| <= |env| && forall k | 0 <= k < |ids| :: ids[k] in rows0
    ensures |Accepted(rows0, ids, env, n + 1)|
            == |Accepted(rows0, ids, env, n)| + if Accepts(rows0, ids, env, n) then 1 else 0
    ensures |Attested(rows0, ids, n + 1)| == |Attested(rows0, ids, n)| + if rows0[ids[n]].attestTx != "" then 1 else 0
  {
    AcceptedGrows(rows0, ids, env, n);
    AttestedGrows(rows0, ids, n);
    hide Accepted, Attested, Accepts;
  }

  lemma AcceptedGrows(rows0: map<nat, Row>, ids: seq<nat>, env: seq<Replies>, n: nat)
    requires n < |ids| <= |env| && forall k | 0 <= k < |ids| :: ids[k] in rows0
    ensures n !in Accepted(rows0, ids, env, n)
    ensures Accepted(rows0, ids, env, n + 1)
            == Accepted(rows0, ids, env, n) + if Accepts(rows0, ids, env, n) then {n} else {}
  {
    hide Accepts;
  }

  lemma AttestedGrows(rows0: map<nat, Row>, ids: seq<nat>, n: nat)
    requires n < |ids| && forall k | 0 <= k < |ids| :: ids[k] in rows0
    ensures n !in Attested(rows0, ids, n)
    ensures Attested(rows0, ids, n + 1) == Attested(rows0, ids, n) + if rows0[ids[n]].attestTx != "" then {n} else {}
  {
  }

  lemma NoneCounted(rows0: map<nat, Row>, ids: seq<nat>, env: seq<Replies>)
    requires |ids| <= |env| && forall k | 0 <= k < |ids| :: ids[k] in rows0
    ensures Accepted(rows0, ids, env, 0) == {} && Attested(rows0, ids, 0) == {}
  {
  }

  lemma OneRowCounts(p: Sweep, id: nat, read: Row, e: Replies)
    requires id in p.rows
    ensures var q := OneRow(p, id, read, e);
            var now := read.attestTx == "" && 1 <= read.sig.signalType <= 255 && e.send.SendAccepted?;
            && q.rows.Keys == p.rows.Keys
            && q.tally.attested == p.tally.attested + (if now then 1 else 0)
            && q.tally.skipped == p.tally.skipped + (if read.attestTx != "" then 1 else 0)
            && q.tally.failed == p.tally.failed + if now || read.attestTx != "" then 0 else 1
  {
    hide CallOf, Recorded, Marked;
  }

  lemma OneRowMarksOne(p: Sweep, id: nat, read: Row, e: Replies, other: nat)
    requires id in p.rows && other in p.rows
    ensures var q := OneRow(p, id, read, e).rows[other];
            && q == p.rows[other].(attestTx := q.attestTx, status := q.status)
            && q.status == if other == id && read.attestTx == "" && 1 <= read.sig.signalType <= 255
                              && e.send.SendAccepted? && e.mark.Written? && e.mark.applied
                           then "submitted" else p.rows[other].status
  {
    hide CallOf, ToLower, AnyApplied;
  }

  /** A pass marks exactly the rows whose send was accepted and whose status write went through, whether or not the
      hash could be recorded, and changes no other column. */
  lemma {:induction false} PassMarks(rows0: map<nat, Row>, sends: seq<Sent>, ids: seq<nat>, env: seq<Replies>, n: nat,
      k: nat)
    requires n <= |ids| <= |env| && (forall k | 0 <= k < |ids| :: ids[k] in rows0) && Distinct(ids) && k < |ids|
    ensures var r, was := Pass(rows0, sends, ids, env, n).rows[ids[k]], rows0[ids[k]];
            && r == was.(attestTx := r.attestTx, status := r.status)
            && r.status == if k in Accepted(rows0, ids, env, n) && env[k].mark.Written? && env[k].mark.applied
                           then "submitted" else was.status
  {
    hide OneRow;
    if n > 0 {
      PassMarks(rows0, sends, ids, env, n - 1, k);
      var p := Pass(rows0, sends, ids, env, n - 1);
      OneRowMarksOne(p, ids[n - 1], rows0[ids[n - 1]], env[n - 1], ids[k]);
    }
  }

  /** Every broadcast of a pass is the call of a row it read as unattested and attestable, once per row, in order. */
  lemma {:induction false} PassSends(rows0: map<nat, Row>, sends: seq<Sent>, ids: seq<nat>, env: seq<Replies>, n: nat)
    requires n <= |ids| <= |env| && (forall k | 0 <= k < |ids| :: ids[k] in rows0)
    ensures Pass(rows0, sends, ids, env, n).sends == sends + Broadcasts(rows0, ids, env, n)
  {
    hide CallOf, Recorded, Marked;
    if n > 0 {
      PassSends(rows0, sends, ids, env, n - 1);
    }
  }

  function Broadcasts(rows0: map<nat, Row>, ids: seq<nat>, env: seq<Replies>, n: nat): seq<Sent>
    requires n <= |ids| <= |env| && forall k | 0 <= k < |ids| :: ids[k] in rows0
  {
    if n == 0 then []
    else
      var id, e := ids[n - 1], env[n - 1];
      var r := rows0[id];
      var before := Broadcasts(rows0, ids, env, n - 1);
      if r.attestTx != "" || !Attestable(r.sig) || e.send.NotSent? then before
      else before + [Sent(id, CallOf(r.sig), if e.send.SendAccepted? then e.send.tx else "", "")]
  }

  /** At least once, within the window: a pass over the `limit` newest rows leaves an attestable row recorded whose send
      and write go through, if fewer than `limit` rows are newer. */
  lemma CleanPassAttestsAll(rows0: map<nat, Row>, nextId: nat, sends: seq<Sent>, limit: nat, env: seq<Replies>, id: nat)
    requires Dense(rows0, nextId) && |env| == |NewestIds(nextId, limit)|
    requires id < nextId <= id + limit && Attestable(rows0[id].sig)
    requires var e := env[nextId - 1 - id]; RepliesFit(e) && e.send.SendAccepted? && AnyOk(e.writes)
    ensures Pass(rows0, sends, NewestIds(nextId, limit), env, |env|).rows[id].attestTx != ""
  {
    var ids, k := NewestIds(nextId, limit), nextId - 1 - id;
    var e := env[k];
    PassRecords(rows0, sends, ids, env, |ids|, id);
    assert ids[k] == id;
    var j :| 0 <= j < |e.writes| && e.writes[j].Written? && e.writes[j].ok;
    assert WriteFits(e.writes[j]) && e.writes[j].applied;
    assert AnyApplied(e.writes);
  }

  /** A pass over rows that are all recorded, or not attestable, sends nothing, whatever the node would answer. */
  lemma {:induction false} RecordedRowsAreNotSent(rows0: map<nat, Row>, sends: seq<Sent>, ids: seq<nat>,
      env: seq<Replies>, n: nat)
    requires n <= |ids| <= |env| && (forall k | 0 <= k < |ids| :: ids[k] in rows0)
    requires forall k | 0 <= k < |ids| :: rows0[ids[k]].attestTx != "" || !Attestable(rows0[ids[k]].sig)
    ensures Pass(rows0, sends, ids, env, n).sends == sends && Pass(rows0, sends, ids, env, n).rows == rows0
  {
    hide CallOf, Recorded, Marked;
    if n > 0 {
      RecordedRowsAreNotSent(rows0, sends, ids, env, n - 1);
    }
  }

  /** So a second pass right after a clean one sends nothing. */
  lemma SecondPassIsSilent(rows0: map<nat, Row>, nextId: nat, sends: seq<Sent>, limit: nat, env: seq<Replies>,
                           env': seq<Replies>)
    requires Dense(rows0, nextId) && |env| == |env'| == |NewestIds(nextId, limit)|
    requires forall k | 0 <= k < |env| :: RepliesFit(env[k]) && env[k].send.SendAccepted? && AnyOk(env[k].writes)
    ensures var ids := NewestIds(nextId, limit);
            var after := Pass(rows0, sends, ids, env, |ids|);
            Pass(after.rows, after.sends, ids, env', |ids|).sends == after.sends
  {
    hide AnyOk, RepliesFit, Attestable, Pass;
    var ids := NewestIds(nextId, limit);
    var after := Pass(rows0, sends, ids, env, |ids|);
    forall k | 0 <= k < |ids|
      ensures after.rows[ids[k]].attestTx != "" || !Attestable(after.rows[ids[k]].sig)
    {
      PassRecords(rows0, sends, ids, env, |ids|, ids[k]);
      if Attestable(rows0[ids[k]].sig) {
        CleanPassAttestsAll(rows0, nextId, sends, limit, env, ids[k]);
      }
    }
    RecordedRowsAreNotSent(after.rows, after.sends, ids, env', |ids|);
  }

  // ---------- A pass as a run of the process it is ----------

  /** The worker stands before entry n of its snapshot. */
  predicate Before(s: State, w: nat, snapshot: seq<(nat, Row)>, n: nat) {
    w < |s.workers| && s.workers[w] == Recovery(snapshot, n, Attesting)
  }

  lemma OneAdvance(s: State, w: nat, a: Answer)
    requires Inv(s) && Enabled(s, Advance(w, a))
    ensures Run(s, [Advance(w, a)]) == Progress(s, w, a) && Inv(Progress(s, w, a))
  {
    hide Inv;
    RunStep(s, Advance(w, a));
    StepKeepsInv(s, Advance(w, a));
  }

  lemma KnownRow(s: State, w: nat, snapshot: seq<(nat, Row)>, n: nat)
    requires Inv(s) && w < |s.workers| && n < |snapshot|
    requires s.workers[w].Recovery? && s.workers[w].snapshot == snapshot
    ensures snapshot[n].0 in s.rows
  {
    InvAt(s, w, 0);
    assert SameSignal(s.rows, snapshot[n].0, snapshot[n].1.sig);
  }

  /** The tries at the attest_tx write from the k-th on. */
  lemma {:induction false} WritesRun(s: State, w: nat, snapshot: seq<(nat, Row)>, n: nat, tx: string, r0: Row,
                                     writes: seq<Answer>, k: nat)
    returns (acts: seq<Action>)
    requires Inv(s) && w < |s.workers| && n < |snapshot| && k < |writes| == ATTEMPTS
    requires s.workers[w] == Recovery(snapshot, n, Persisting(tx, k + 1))
    requires forall j | 0 <= j < |writes| :: WriteFits(writes[j])
    requires var id := snapshot[n].0;
             id in s.rows && s.rows[id] == Recorded(r0, tx, writes[..k]) && !AnyOk(writes[..k])
    ensures var t, id := Run(s, acts), snapshot[n].0;
            && Inv(t) && t.sends == s.sends && t.rows == s.rows[id := Recorded(r0, tx, writes)]
            && w < |t.workers| && t.workers[w] == Recovery(snapshot, n, Marking) && Within(acts, 0)
    decreases |writes| - k
  {
    hide Inv, Run, ToLower, AnyOk, AnyApplied;
    var a := writes[k];
    OneAdvance(s, w, a);
    Tried(writes, k);
    var t := Progress(s, w, a);
    acts := [Advance(w, a)];
    if a.ok || k + 1 == ATTEMPTS {
      if a.ok {
        TriedEnough(writes, k + 1);
      } else {
        assert writes[..k + 1] == writes;
      }
    } else {
      var rest := WritesRun(t, w, snapshot, n, tx, r0, writes, k + 1);
      acts := acts + rest;
      RunConcat(s, [Advance(w, a)], rest);
    }
  }

  lemma NothingTried(writes: seq<Answer>, r: Row, tx: string)
    ensures !AnyOk(writes[..0]) && Recorded(r, tx, writes[..0]) == r
  {
  }

  /** One row of the pass is a run of the worker's next steps. */
  lemma RowRuns(s: State, w: nat, snapshot: seq<(nat, Row)>, n: nat, e: Replies, t: Tally) returns (acts: seq<Action>)
    requires Inv(s) && Before(s, w, snapshot, n) && n < |snapshot| && RepliesFit(e) && snapshot[n].0 in s.rows
    ensures var u, p := Run(s, acts), OneRow(Sweep(s.rows, s.sends, t), snapshot[n].0, snapshot[n].1, e);
            && Inv(u) && Before(u, w, snapshot, n + 1) && u.rows == p.rows && u.sends == p.sends && Within(acts, 0)
  {
    hide Inv, Run, ToLower, CallOf, AnyApplied, AnyOk;
    var (id, read) := snapshot[n];
    if read.attestTx != "" || !Attestable(read.sig) || !e.send.SendAccepted? {
      OneAdvance(s, w, e.send);
      acts := [Advance(w, e.send)];
      assert s.sends + [] == s.sends;
    } else {
      var send, mark := [Advance(w, e.send)], [Advance(w, e.mark)];
      OneAdvance(s, w, e.send);
      var s1 := Run(s, send);
      NothingTried(e.writes, s.rows[id], e.send.tx);
      var writes := WritesRun(s1, w, snapshot, n, e.send.tx, s.rows[id], e.writes, 0);
      var s2 := Run(s1, writes);
      OneAdvance(s2, w, e.mark);
      RunConcat(s, send, writes);
      RunConcat(s, send + writes, mark);
      acts := (send + writes) + mark;
    }
  }

  lemma {:induction false} RowsRun(s: State, w: nat, snapshot: seq<(nat, Row)>, ids: seq<nat>, rows0: map<nat, Row>,
                                   sends0: seq<Sent>, env: seq<Replies>, n: nat)
    returns (acts: seq<Action>)
    requires Inv(s) && Before(s, w, snapshot, 0) && s.rows == rows0 && s.sends == sends0
    requires n <= |ids| == |snapshot| == |env| && forall k | 0 <= k < |env| :: RepliesFit(env[k])
    requires forall k | 0 <= k < |ids| :: ids[k] in rows0 && snapshot[k] == (ids[k], rows0[ids[k]])
    ensures var u, p := Run(s, acts), Pass(rows0, sends0, ids, env, n);
            && Inv(u) && Before(u, w, snapshot, n) && u.rows == p.rows && u.sends == p.sends && Within(acts, 0)
    decreases n
  {
    hide Inv, Run, OneRow, RepliesFit;
    if n == 0 {
      acts := [];
      RunNothing(s, []);
    } else {
      var before := RowsRun(s, w, snapshot, ids, rows0, sends0, env, n - 1);
      var u, p := Run(s, before), Pass(rows0, sends0, ids, env, n - 1);
      KnownRow(u, w, snapshot, n - 1);
      var next := RowRuns(u, w, snapshot, n - 1, env[n - 1], p.tally);
      RunConcat(s, before, next);
      acts := before + next;
    }
  }

  /** A whole pass, whatever the node and the database answer, is a run of the state machine: what the interleaving
      theorems say holds of it and of everything that goes on between its steps. */
  lemma PassIsARun(s: State, limit: nat, env: seq<Replies>) returns (acts: seq<Action>)
    requires Inv(s) && limit <= CLI_SCAN && Dense(s.rows, s.nextId) && |env| == |NewestIds(s.nextId, limit)|
    requires forall k | 0 <= k < |env| :: RepliesFit(env[k])
    ensures var u, p := Run(s, acts), Pass(s.rows, s.sends, NewestIds(s.nextId, limit), env, |env|);
            u.rows == p.rows && u.sends == p.sends && Within(acts, limit)
  {
    hide Inv, Run, RepliesFit, Pass;
    var a := StartRecovery(limit);
    RunStep(s, a);
    StepKeepsInv(s, a);
    var t := Run(s, [a]);
    var snapshot, ids := Newest(s.rows, s.nextId, limit), NewestIds(s.nextId, limit);
    var rest := RowsRun(t, |s.workers|, snapshot, ids, s.rows, s.sends, env, |env|);
    acts := [a] + rest;
    RunConcat(s, [a], rest);
  }
}
