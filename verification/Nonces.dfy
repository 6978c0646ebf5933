/** The nonce manager shared by every sender of one wallet (internal/attest/nonce.go): its fields, the
    steps a send takes under its mutex, and what a node with a lagging view can and cannot break. */
module Nonces {

  /** What became of the transaction: failed before it was broadcast, broadcast with an error (it may
      have propagated all the same), or accepted. */
  datatype Outcome = NotBroadcast | BroadcastFailed(propagated: bool) | Accepted {
    predicate OnWire() { Accepted? || (BroadcastFailed? && propagated) }
  }

  datatype Manager = Manager(localNonce: nat, known: bool)

  function PickNonce(m: Manager, pending: nat): nat {
    if m.known && m.localNonce > pending then m.localNonce else pending
  }

  /** The larger of the two views, when the local one is known: a node that is ahead wins. */
  lemma PickIsLarger(m: Manager, pending: nat)
    ensures PickNonce(m, pending) >= pending && (m.known ==> PickNonce(m, pending) >= m.localNonce)
    ensures PickNonce(m, pending) == pending || (m.known && PickNonce(m, pending) == m.localNonce)
  {
  }

  function AfterSend(m: Manager, nonce: nat, outcome: Outcome): Manager {
    match outcome
    case NotBroadcast => m
    case BroadcastFailed(_) => m.(known := false)
    case Accepted => Manager(nonce + 1, true)
  }

  /** The object itself; the mutex makes one call of Send one step. */
  class NonceManager {
    var localNonce: nat
    var known: bool

    function Abs(): Manager
      reads this
    {
      Manager(localNonce, known)
    }

    constructor ()
      ensures Abs() == Manager(0, false)
    {
      localNonce, known := 0, false;
    }

    /** `pending` is the node's answer (none when the call fails), `outcome` what the send closure
        reports; `used` is the nonce handed to the closure. */
    method Send(pending: seq<nat>, outcome: Outcome) returns (ok: bool, used: seq<nat>)
      requires |pending| <= 1
      modifies this
      ensures pending == [] ==> !ok && used == [] && Abs() == old(Abs())
      ensures pending != [] ==>
                && used == [PickNonce(old(Abs()), pending[0])]
                && Abs() == AfterSend(old(Abs()), used[0], outcome)
                && (ok <==> outcome.Accepted?)
      ensures pending != [] ==>
                && used[0] == (if old(known) && old(localNonce) > pending[0] then old(localNonce) else pending[0])
                && known == (outcome.Accepted? || (outcome.NotBroadcast? && old(known)))
                && (outcome.Accepted? ==> localNonce == used[0] + 1)
    {
      if pending == [] {
        return false, [];
      }
      var nonce := pending[0];
      if known && localNonce > nonce {
        nonce := localNonce;
      }
      if !outcome.Accepted? {
        if outcome.BroadcastFailed? {
          known := false;
        }
        return false, [nonce];
      }
      localNonce := nonce + 1;
      known := true;
      return true, [nonce];
    }
  }

  // ---------- Many senders, one wallet ----------

  /** A nonce the network has taken, with the number of resyncs before it. */
  datatype Taken = Taken(nonce: nat, epoch: nat)

  /** Where the sender that holds the mutex has got to. */
  datatype Stage = Entered | HasPending(pending: nat) | Returned(nonce: nat, outcome: Outcome)

  datatype Holder = Free | Held(sender: nat, stage: Stage)

  datatype State = State(m: Manager, holder: Holder, taken: seq<Taken>, epoch: nat)

  /** Enter the mutex; read the pending nonce (none: the call failed and the sender leaves); run the
      send closure; book-keep and leave. Restart is a crash of the process at any of these points. */
  datatype Action = Lock(sender: nat) | ReadPending(view: seq<nat>) | RunClosure(outcome: Outcome) | Unlock | Restart

  predicate Enabled(s: State, a: Action) {
    match a
    case Lock(_) => s.holder.Free?
    case ReadPending(view) => |view| <= 1 && s.holder.Held? && s.holder.stage.Entered?
    case RunClosure(_) => s.holder.Held? && s.holder.stage.HasPending?
    case Unlock => s.holder.Held? && s.holder.stage.Returned?
    case Restart => true
  }

  function Step(s: State, a: Action): State
    requires Enabled(s, a)
  {
    match a
    case Lock(t) => s.(holder := Held(t, Entered))
    case ReadPending(view) =>
      if view == [] then s.(holder := Free) else s.(holder := Held(s.holder.sender, HasPending(view[0])))
    case RunClosure(outcome) =>
      var nonce := PickNonce(s.m, s.holder.stage.pending);
      s.(holder := Held(s.holder.sender, Returned(nonce, outcome)),
         taken := if outcome.OnWire() then s.taken + [Taken(nonce, s.epoch)] else s.taken)
    case Unlock =>
      var r := s.holder.stage;
      var m := AfterSend(s.m, r.nonce, r.outcome);
      s.(m := m, holder := Free, epoch := if r.outcome.BroadcastFailed? then s.epoch + 1 else s.epoch)
    case Restart => s.(m := Manager(0, false), holder := Free, epoch := s.epoch + 1)
  }

  function Run(s: State, acts: seq<Action>): State
    decreases |acts|
  {
    if acts == [] then s else Run(if Enabled(s, acts[0]) then Step(s, acts[0]) else s, acts[1..])
  }

  /** A wallet that has used the nonces below n, and a manager that knows nothing. */
  function Start(n: nat): State {
    State(Manager(0, false), Free, seq(n, (i: nat) => Taken(i, 0)), 1)
  }

  /** The four steps of one sender are the method above, on the state all senders share. */
  lemma SendIsOneStep(s: State, t: nat, view: nat, o: Outcome)
    requires s.holder.Free?
    ensures var nonce := PickNonce(s.m, view);
            Run(s, [Lock(t), ReadPending([view]), RunClosure(o), Unlock])
            == State(AfterSend(s.m, nonce, o), Free, if o.OnWire() then s.taken + [Taken(nonce, s.epoch)] else s.taken,
                     if o.BroadcastFailed? then s.epoch + 1 else s.epoch)
  {
    var acts := [Lock(t), ReadPending([view]), RunClosure(o), Unlock];
    var s1 := Step(s, Lock(t));
    var s2 := Step(s1, ReadPending([view]));
    var s3 := Step(s2, RunClosure(o));
    assert acts[1..] == [ReadPending([view]), RunClosure(o), Unlock];
    assert acts[1..][1..] == [RunClosure(o), Unlock];
    assert acts[1..][1..][1..] == [Unlock];
    assert Run(s3, [Unlock]) == Run(Step(s3, Unlock), []);
    assert Run(s2, acts[1..][1..]) == Run(s3, [Unlock]);
    assert Run(s1, acts[1..]) == Run(s2, acts[1..][1..]);
  }

  // ---------- Whatever the node answers: increasing between resyncs ----------

  ghost predicate Increasing(taken: seq<Taken>) {
    forall i, j | 0 <= i < j < |taken| :: taken[i].epoch == taken[j].epoch ==> taken[i].nonce < taken[j].nonce
  }

  /** The nonces of the running epoch are below what the manager will use next. */
  ghost predicate EpochOk(s: State) {
    && Increasing(s.taken)
    && (forall i | 0 <= i < |s.taken| :: s.taken[i].epoch <= s.epoch)
    && (forall i | 0 <= i < |s.taken| && s.taken[i].epoch == s.epoch ::
          if s.holder.Held? && s.holder.stage.Returned? && s.holder.stage.outcome.OnWire()
          then s.taken[i].nonce <= s.holder.stage.nonce
          else s.m.known && s.taken[i].nonce < s.m.localNonce)
  }

  lemma {:induction false} EpochKept(s: State, acts: seq<Action>)
    requires EpochOk(s)
    ensures EpochOk(Run(s, acts))
    decreases |acts|
  {
    if acts != [] {
      EpochKept(if Enabled(s, acts[0]) then Step(s, acts[0]) else s, acts[1..]);
    }
  }

  /** For every node and every interleaving, the nonces taken between two resyncs strictly increase. */
  lemma NoncesIncreaseBetweenResyncs(n: nat, acts: seq<Action>)
    ensures Increasing(Run(Start(n), acts).taken)
  {
    EpochKept(Start(n), acts);
  }

  // ---------- A node whose view never runs ahead: unique exactly when caught up ----------

  ghost predicate Distinct(taken: seq<Taken>) {
    forall i, j | 0 <= i < j < |taken| :: taken[i].nonce != taken[j].nonce
  }

  ghost predicate Contiguous(taken: seq<Taken>) {
    forall i | 0 <= i < |taken| :: taken[i].nonce == i
  }

  /** Every pending view is at most the next unused nonce: it may lag, it never leads. */
  predicate NeverLeads(s: State, acts: seq<Action>)
    decreases |acts|
  {
    acts != [] ==>
    && (Enabled(s, acts[0]) && acts[0].ReadPending? && acts[0].view != [] ==> acts[0].view[0] <= |s.taken|)
    && NeverLeads(if Enabled(s, acts[0]) then Step(s, acts[0]) else s, acts[1..])
  }

  /** Whenever a transaction reaches the wire while the manager is not `known`, the view it was sent
      on had caught up. */
  predicate CaughtUp(s: State, acts: seq<Action>)
    decreases |acts|
  {
    acts != [] ==>
    && (Enabled(s, acts[0]) && acts[0].RunClosure? && acts[0].outcome.OnWire() && !s.m.known ==>
       s.holder.stage.pending == |s.taken|)
    && CaughtUp(if Enabled(s, acts[0]) then Step(s, acts[0]) else s, acts[1..])
  }

  /** A known counter is the next unused nonce, once the send in hand is booked. */
  ghost predicate CounterOk(s: State) {
    && Contiguous(s.taken)
    && (s.holder.Held? && s.holder.stage.HasPending? ==> s.holder.stage.pending <= |s.taken|)
    && if s.holder.Held? && s.holder.stage.Returned? && s.holder.stage.outcome.OnWire()
       then s.holder.stage.nonce == |s.taken| - 1
       else s.m.known ==> s.m.localNonce == |s.taken|
  }

  lemma {:induction false} TakenGrows(s: State, acts: seq<Action>)
    ensures s.taken <= Run(s, acts).taken
    decreases |acts|
  {
    if acts != [] {
      TakenGrows(if Enabled(s, acts[0]) then Step(s, acts[0]) else s, acts[1..]);
    }
  }

  lemma {:induction false} UniqueIffCaughtUp(s: State, acts: seq<Action>)
    requires CounterOk(s) && NeverLeads(s, acts)
    ensures var r := Run(s, acts);
            && (CaughtUp(s, acts) ==> Contiguous(r.taken))
            && (Distinct(r.taken) <==> CaughtUp(s, acts))
    decreases |acts|
  {
    if acts != [] {
      var s1 := if Enabled(s, acts[0]) then Step(s, acts[0]) else s;
      if Enabled(s, acts[0]) && acts[0].RunClosure? && acts[0].outcome.OnWire() && !s.m.known
         && s.holder.stage.pending != |s.taken| {
        // a lagging view hands out a nonce that is already taken
        var nonce := s.holder.stage.pending;
        TakenGrows(s1, acts[1..]);
        var r := Run(s1, acts[1..]);
        assert r.taken[nonce].nonce == nonce && r.taken[|s.taken|].nonce == nonce by {
          assert s1.taken[nonce].nonce == nonce;
        }
      } else {
        UniqueIffCaughtUp(s1, acts[1..]);
      }
    }
  }

  /** Over every run of concurrent senders with arbitrary lag, failures before the broadcast and failed
      broadcasts that propagated: no nonce is taken twice exactly when the view had caught up at each
      send made while not `known`, and then the nonces taken are 0, 1, 2, ... without a hole. */
  lemma NoncesUnique(n: nat, acts: seq<Action>)
    requires NeverLeads(Start(n), acts)
    ensures var r := Run(Start(n), acts);
            && (Distinct(r.taken) <==> CaughtUp(Start(n), acts))
            && (Distinct(r.taken) ==> forall i | 0 <= i < |r.taken| :: r.taken[i].nonce == i)
  {
    UniqueIffCaughtUp(Start(n), acts);
  }

  /** The failing family is not empty: a send, a failed broadcast, and a view that has not caught up. */
  lemma LaggingResyncReuses()
    ensures var once := (view: nat, o: Outcome) => [Lock(0), ReadPending([view]), RunClosure(o), Unlock];
            var r := Run(Run(Run(Start(0), once(0, Accepted)), once(1, BroadcastFailed(false))), once(0, Accepted));
            r.taken == [Taken(0, 1), Taken(0, 2)]
  {
    hide Run;
    SendIsOneStep(Start(0), 0, 0, Accepted);
    var s1 := Run(Start(0), [Lock(0), ReadPending([0]), RunClosure(Accepted), Unlock]);
    SendIsOneStep(s1, 0, 1, BroadcastFailed(false));
    var s2 := Run(s1, [Lock(0), ReadPending([1]), RunClosure(BroadcastFailed(false)), Unlock]);
    SendIsOneStep(s2, 0, 0, Accepted);
  }
}
