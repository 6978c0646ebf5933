/** The live-feed fan-out hub (internal/api/hub.go): one bounded channel per subscriber, a broadcast
    that never blocks, and slow subscribers dropped by closing their channel. */
module LiveHub {
  import opened Common

  const CLIENT_BUFFER_SIZE: nat := 64
  const MAX_SSE_CLIENTS: nat := 256

  /** One subscriber's channel, with its whole past: every event ever queued, how many of them the
      reader has taken, and how many broadcasts came before the subscription. */
  datatype Channel<E> = Channel(history: seq<E>, taken: nat, since: nat, open: bool) {
    predicate Bounded() {
      taken <= |history| <= taken + CLIENT_BUFFER_SIZE
    }

    predicate HasRoom() {
      |history| < taken + CLIENT_BUFFER_SIZE
    }
  }

  /** `chans` holds every channel ever handed out, `clients` the registered ones, and `log` every
      event broadcast while the hub was open. */
  datatype HubState<C(==), E> =
    HubState(clients: set<C>, chans: map<C, Channel<E>>, closed: bool, log: seq<E>)

  function Empty<C(==), E>(): HubState<C, E> {
    HubState({}, map[], false, [])
  }

  /** What holds of one channel: bounded, open exactly while registered, and its history a prefix
      of the broadcasts since it subscribed (all of them while it is registered). */
  predicate ChannelOk<E(==)>(ch: Channel<E>, registered: bool, log: seq<E>) {
    && ch.Bounded()
    && ch.since + |ch.history| <= |log|
    && (forall i | 0 <= i < |ch.history| :: ch.history[i] == log[ch.since + i])
    && ch.open == registered
    && (registered ==> ch.since + |ch.history| == |log|)
  }

  /** What holds of a hub in every reachable state. */
  ghost predicate Inv<C, E>(h: HubState<C, E>) {
    && h.clients <= h.chans.Keys
    && |h.clients| <= MAX_SSE_CLIENTS
    && (h.closed ==> h.clients == {})
    && forall c <- h.chans :: ChannelOk(h.chans[c], c in h.clients, h.log)
  }

  // ---------- The five operations, as functions of the hub's state ----------

  function Subscribe<C, E>(h: HubState<C, E>, c: C): (r: (HubState<C, E>, bool))
    requires c !in h.chans
  {
    var blank := Channel([], 0, |h.log|, !h.closed);
    if h.closed then
      (h.(chans := h.chans[c := blank]), true)
    else if |h.clients| >= MAX_SSE_CLIENTS then
      (h, false)
    else
      (h.(clients := h.clients + {c}, chans := h.chans[c := blank]), true)
  }

  function Unsubscribe<C, E>(h: HubState<C, E>, c: C): HubState<C, E> {
    if c in h.clients && c in h.chans then
      h.(clients := h.clients - {c}, chans := h.chans[c := h.chans[c].(open := false)])
    else
      h
  }

  /** What one broadcast does to one registered channel: queue, or drop the reader that is full. */
  function Offer<E>(ch: Channel<E>, ev: E): Channel<E> {
    if ch.HasRoom() then ch.(history := ch.history + [ev]) else ch.(open := false)
  }

  function Broadcast<C, E>(h: HubState<C, E>, ev: E): HubState<C, E> {
    if h.closed then h else
      HubState(set c | c in h.clients && c in h.chans && h.chans[c].HasRoom(),
               map c | c in h.chans :: if c in h.clients then Offer(h.chans[c], ev) else h.chans[c],
               false, h.log + [ev])
  }

  function Close<C, E>(h: HubState<C, E>): HubState<C, E> {
    if h.closed then h else
      HubState({},
               map c | c in h.chans :: if c in h.clients then h.chans[c].(open := false) else h.chans[c],
               true, h.log)
  }

  /** The reader takes the oldest queued event; a closed channel still drains. */
  function Receive<C, E>(h: HubState<C, E>, c: C): HubState<C, E>
    requires c in h.chans && h.chans[c].taken < |h.chans[c].history|
  {
    h.(chans := h.chans[c := h.chans[c].(taken := h.chans[c].taken + 1)])
  }

  // ---------- Every run ----------

  datatype Op<C, E> = Join(c: C) | Leave(c: C) | Publish(ev: E) | Take(c: C) | Shutdown

  /** One operation; a step that cannot happen (a reused name, an empty channel) changes nothing. */
  function Step<C, E>(h: HubState<C, E>, op: Op<C, E>): HubState<C, E> {
    match op
    case Join(c) => if c in h.chans then h else Subscribe(h, c).0
    case Leave(c) => Unsubscribe(h, c)
    case Publish(ev) => Broadcast(h, ev)
    case Take(c) =>
      if c in h.chans && h.chans[c].taken < |h.chans[c].history| then Receive(h, c) else h
    case Shutdown => Close(h)
  }

  lemma BroadcastKeepsInv<C, E>(h: HubState<C, E>, ev: E)
    requires Inv(h)
    ensures Inv(Broadcast(h, ev))
  {
    if !h.closed {
      var r := Broadcast(h, ev);
      SubsetSize(r.clients, h.clients);
      forall c <- r.chans
        ensures ChannelOk(r.chans[c], c in r.clients, r.log)
      {
        assert ChannelOk(h.chans[c], c in h.clients, h.log);
      }
    }
  }

  lemma SubscribeKeepsInv<C, E>(h: HubState<C, E>, c: C)
    requires Inv(h) && c !in h.chans
    ensures Inv(Subscribe(h, c).0)
  {
  }

  lemma UnsubscribeKeepsInv<C, E>(h: HubState<C, E>, c: C)
    requires Inv(h)
    ensures Inv(Unsubscribe(h, c))
  {
  }

  lemma CloseKeepsInv<C, E>(h: HubState<C, E>)
    requires Inv(h)
    ensures Inv(Close(h))
  {
  }

  lemma ReceiveKeepsInv<C, E>(h: HubState<C, E>, c: C)
    requires Inv(h) && c in h.chans && h.chans[c].taken < |h.chans[c].history|
    ensures Inv(Receive(h, c))
  {
  }

  lemma StepKeepsInv<C, E>(h: HubState<C, E>, op: Op<C, E>)
    requires Inv(h)
    ensures Inv(Step(h, op))
  {
    match op
    case Join(c) => if c !in h.chans { SubscribeKeepsInv(h, c); }
    case Leave(c) => UnsubscribeKeepsInv(h, c);
    case Publish(ev) => BroadcastKeepsInv(h, ev);
    case Take(c) => if c in h.chans && h.chans[c].taken < |h.chans[c].history| { ReceiveKeepsInv(h, c); }
    case Shutdown => CloseKeepsInv(h);
  }

  lemma InvIs<C, E>(h: HubState<C, E>)
    requires Inv(h)
    ensures h.clients <= h.chans.Keys && (h.closed ==> h.clients == {})
  {
  }

  lemma VisitOne<C>(todo: set<C>, stay: set<C>, c: C)
    requires c in todo
    ensures c in stay ==> todo + stay == (todo - {c}) + stay
                          && |stay - (todo - {c})| == |stay - todo| + 1
    ensures c !in stay ==> todo + stay - {c} == (todo - {c}) + stay
                           && stay - (todo - {c}) == stay - todo
  {
  }

  function Run<C, E>(h: HubState<C, E>, ops: seq<Op<C, E>>): HubState<C, E>
    decreases |ops|
  {
    if ops == [] then h else Run(Step(h, ops[0]), ops[1..])
  }

  lemma {:induction false} RunKeepsInv<C, E>(h: HubState<C, E>, ops: seq<Op<C, E>>)
    requires Inv(h)
    ensures Inv(Run(h, ops))
    decreases |ops|
  {
    if ops != [] {
      StepKeepsInv(h, ops[0]);
      RunKeepsInv(Step(h, ops[0]), ops[1..]);
    }
  }

  /** Hub safety over all runs: registered exactly when open, at most 256 clients and 64 queued
      events each, and every channel's history is a prefix of the broadcasts since it subscribed. */
  lemma HubSafety<C, E>(ops: seq<Op<C, E>>)
    ensures var h := Run(Empty<C, E>(), ops);
            && |h.clients| <= 256
            && forall c <- h.chans ::
                 var ch := h.chans[c];
                 && (ch.open <==> c in h.clients)
                 && ch.taken <= |ch.history| && |ch.history[ch.taken..]| <= 64
                 && ch.since <= |h.log|
                 && ch.history <= h.log[ch.since..]
                 && (ch.open ==> ch.history == h.log[ch.since..])
  {
    RunKeepsInv(Empty<C, E>(), ops);
    var h := Run(Empty<C, E>(), ops);
    forall c <- h.chans
      ensures ChannelOk(h.chans[c], c in h.clients, h.log)
    {
    }
  }

  lemma ClosedStaysClosed<C, E>(h: HubState<C, E>, op: Op<C, E>, c: C)
    requires Inv(h) && c in h.chans && !h.chans[c].open
    ensures var r := Step(h, op);
            c in r.chans && !r.chans[c].open && r.chans[c].history == h.chans[c].history
  {
    assert ChannelOk(h.chans[c], c in h.clients, h.log);
  }

  /** A closed channel is closed for good and nothing is ever queued on it again. */
  lemma {:induction false} ClosedForGood<C, E>(h: HubState<C, E>, ops: seq<Op<C, E>>, c: C)
    requires Inv(h) && c in h.chans && !h.chans[c].open
    ensures var r := Run(h, ops);
            c in r.chans && !r.chans[c].open && r.chans[c].history == h.chans[c].history
    decreases |ops|
  {
    if ops != [] {
      StepKeepsInv(h, ops[0]);
      ClosedStaysClosed(h, ops[0], c);
      ClosedForGood(Step(h, ops[0]), ops[1..], c);
    }
  }

  /** A broadcast reaches every registered reader with room and drops exactly the full ones. */
  lemma BroadcastReach<C, E>(h: HubState<C, E>, ev: E, c: C)
    requires Inv(h) && c in h.clients
    ensures var r := Broadcast(h, ev);
            var full := |h.chans[c].history| - h.chans[c].taken == 64;
            && c in r.chans
            && (c in r.clients <==> !full)
            && (r.chans[c].open <==> !full)
            && r.chans[c].history == h.chans[c].history + (if full then [] else [ev])
            && r.chans[c].taken == h.chans[c].taken
  {
  }

  // ---------- The hub as the object the server shares ----------

  /** One queued event: the signal id that becomes the id line, the event name, the payload. */
  datatype SseEvent = SseEvent(id: int, name: string, data: string)

  class Client {
    var buf: seq<SseEvent>
    var open: bool

    constructor ()
      ensures buf == [] && open
    {
      buf, open := [], true;
    }

    /** The channel object holds exactly the untaken part of its modelled history. */
    ghost predicate Mirrors(ch: Channel<SseEvent>)
      reads this
    {
      open == ch.open && ch.taken <= |ch.history| && buf == ch.history[ch.taken..]
    }

    /** The non-blocking send. Sending on a closed channel panics, hence the precondition. */
    method TrySend(ev: SseEvent) returns (sent: bool)
      requires open
      modifies this
      ensures open && sent == (|old(buf)| < CLIENT_BUFFER_SIZE)
      ensures buf == if sent then old(buf) + [ev] else old(buf)
    {
      sent := |buf| < CLIENT_BUFFER_SIZE;
      if sent {
        buf := buf + [ev];
      }
    }

    /** Closing a closed channel panics, hence the precondition. */
    method CloseChannel()
      requires open
      modifies this
      ensures !open && buf == old(buf)
    {
      open := false;
    }

    /** One turn of the broadcast loop: queue the event, or drop this reader. */
    method QueueOrDrop(ev: SseEvent, ghost ch: Channel<SseEvent>) returns (sent: bool)
      requires open && Mirrors(ch)
      modifies this
      ensures Mirrors(Offer(ch, ev)) && sent == ch.HasRoom()
    {
      sent := TrySend(ev);
      if !sent {
        CloseChannel();
      }
    }
  }

  /** The object, tied to the value model: `model` is the state above. */
  class Hub {
    var clients: set<Client>
    var closed: bool
    ghost var model: HubState<Client, SseEvent>

    ghost predicate Valid()
      reads this, model.chans.Keys
    {
      && Inv(model)
      && clients == model.clients && closed == model.closed
      && forall c <- model.chans.Keys :: c.Mirrors(model.chans[c])
    }

    constructor ()
      ensures Valid() && model == Empty()
    {
      clients, closed, model := {}, false, Empty();
    }

    method SubscribeClient() returns (c: Client, ok: bool)
      requires Valid()
      modifies this
      ensures Valid() && fresh(c) && c !in old(model).chans
      ensures ok <==> old(closed) || |old(clients)| < 256
      ensures clients == old(clients) + (if ok && !old(closed) then {c} else {}) && closed == old(closed)
      ensures ok ==> c.buf == [] && c.open == !closed
      ensures ok == Subscribe(old(model), c).1
      ensures model == if ok then Subscribe(old(model), c).0 else old(model)
    {
      hide ChannelOk, Inv;
      c := new Client();
      InvIs(model);
      SubscribeKeepsInv(model, c);
      if closed {
        c.CloseChannel();
        model := Subscribe(model, c).0;
        return c, true;
      }
      if |clients| >= MAX_SSE_CLIENTS {
        return c, false;
      }
      clients := clients + {c};
      model := Subscribe(model, c).0;
      return c, true;
    }

    method UnsubscribeClient(c: Client)
      requires Valid() && c in model.chans
      modifies this, c
      ensures Valid() && model == Unsubscribe(old(model), c)
      ensures clients == old(clients) - {c} && closed == old(closed)
      ensures c.buf == old(c.buf) && c.open == (old(c.open) && c !in old(clients))
    {
      UnsubscribeKeepsInv(model, c);
      if c !in clients {
        return;
      }
      assert ChannelOk(model.chans[c], true, model.log) && c.Mirrors(model.chans[c]);
      clients := clients - {c};
      c.CloseChannel();
      model := Unsubscribe(model, c);
    }

    /** The registered clients are visited in an arbitrary order; the outcome is one function of the
        state before, so the order never shows. */
    method BroadcastEvent(ev: SseEvent) returns (delivered: nat)
      requires Valid()
      modifies this, clients
      ensures Valid() && model == Broadcast(old(model), ev)
      ensures delivered == (if old(closed) then 0 else |clients|) && closed == old(closed)
      ensures closed ==> clients == old(clients)
      ensures !closed ==> clients <= old(clients)
      ensures !closed ==> forall c <- old(clients) ::
                && (c in clients <==> |old(c.buf)| < 64)
                && c.open == (c in clients) && c.buf == old(c.buf) + if c in clients then [ev] else []
    {
      BroadcastKeepsInv(model, ev);
      if closed {
        return 0;
      }
      forall c <- clients
        ensures model.chans[c].open
      {
        assert ChannelOk(model.chans[c], true, model.log);
      }
      ghost var after := Broadcast(model, ev);
      delivered := VisitAll(ev, model.chans, after.chans, after.clients);
      model := after;
    }

    /** The broadcast loop, over the channels' states before (`was`) and after (`now`). */
    method VisitAll(ev: SseEvent, ghost was: map<Client, Channel<SseEvent>>, ghost now: map<Client, Channel<SseEvent>>,
                    ghost stay: set<Client>)
      returns (delivered: nat)
      requires stay <= clients <= was.Keys == now.Keys
      requires forall c <- clients :: c in stay <==> was[c].HasRoom()
      requires forall c <- was :: c.Mirrors(was[c])
      requires forall c <- clients :: was[c].open
      requires forall c <- was :: now[c] == if c in clients then Offer(was[c], ev) else was[c]
      modifies this`clients, clients
      ensures clients == stay && delivered == |stay|
      ensures forall c <- now :: c.Mirrors(now[c])
    {
      delivered := 0;
      var todo := clients;
      while todo != {}
        invariant todo <= old(clients) && clients == todo + stay
        invariant delivered == |stay - todo|
        invariant forall c <- now :: c.Mirrors(if c in todo then was[c] else now[c])
        decreases todo
      {
        var c :| c in todo;
        var sent := VisitClient(c, ev, was, now, stay, todo);
        todo := todo - {c};
        delivered := delivered + if sent then 1 else 0;
      }
    }

    /** One turn of the loop. */
    method VisitClient(c: Client, ev: SseEvent, ghost was: map<Client, Channel<SseEvent>>,
                       ghost now: map<Client, Channel<SseEvent>>, ghost stay: set<Client>, ghost todo: set<Client>)
      returns (sent: bool)
      requires c in todo && c in was && was.Keys == now.Keys
      requires clients == todo + stay && (c in stay <==> was[c].HasRoom())
      requires was[c].open && now[c] == Offer(was[c], ev)
      requires forall d <- now :: d.Mirrors(if d in todo then was[d] else now[d])
      modifies this`clients, c
      ensures clients == (todo - {c}) + stay
      ensures |stay - (todo - {c})| == |stay - todo| + if sent then 1 else 0
      ensures forall d <- now :: d.Mirrors(if d in todo - {c} then was[d] else now[d])
    {
      VisitOne(todo, stay, c);
      assert c.Mirrors(was[c]);
      sent := c.QueueOrDrop(ev, was[c]);
      if !sent {
        clients := clients - {c};
      }
    }

    method CloseHub()
      requires Valid()
      modifies this, clients
      ensures Valid() && model == Close(old(model))
      ensures closed && clients == {} && forall c <- old(clients) :: !c.open && c.buf == old(c.buf)
    {
      CloseKeepsInv(model);
      if closed {
        return;
      }
      closed := true;
      ghost var after := Close(model);
      forall c <- clients
        ensures model.chans[c].open
      {
        assert ChannelOk(model.chans[c], true, model.log);
      }
      CloseAll(model.chans, after.chans);
      model := after;
    }

    method CloseAll(ghost was: map<Client, Channel<SseEvent>>, ghost now: map<Client, Channel<SseEvent>>)
      requires clients <= was.Keys == now.Keys
      requires forall c <- was :: c.Mirrors(was[c])
      requires forall c <- was :: now[c] == if c in clients then was[c].(open := false) else was[c]
      requires forall c <- clients :: was[c].open
      modifies this`clients, clients
      ensures clients == {} && forall c <- now :: c.Mirrors(now[c])
    {
      while clients != {}
        invariant clients <= old(clients)
        invariant forall c <- was :: c.Mirrors(if c in clients then was[c] else now[c])
        decreases |clients|
      {
        var c :| c in clients;
        CloseOne(c, was, now);
      }
    }

    /** One turn of the loop. */
    method CloseOne(c: Client, ghost was: map<Client, Channel<SseEvent>>, ghost now: map<Client, Channel<SseEvent>>)
      requires c in clients && clients <= was.Keys == now.Keys
      requires was[c].open && now[c] == was[c].(open := false)
      requires forall d <- was :: d.Mirrors(if d in clients then was[d] else now[d])
      modifies this`clients, c
      ensures clients == old(clients) - {c}
      ensures forall d <- was :: d.Mirrors(if d in clients then was[d] else now[d])
    {
      assert c.Mirrors(was[c]);
      clients := clients - {c};
      c.CloseChannel();
    }

    /** The handler's receive on its own channel: the oldest event, or none when the channel is
        closed and drained (or empty). */
    method ReceiveEvent(c: Client) returns (ev: seq<SseEvent>)
      requires Valid() && c in model.chans
      modifies this, c
      ensures Valid()
      ensures var ch := old(model).chans[c];
              if ch.taken < |ch.history|
              then ev == [ch.history[ch.taken]] && model == Receive(old(model), c)
              else ev == [] && model == old(model)
      ensures old(c.buf) == ev + c.buf && (ev == [] ==> c.buf == []) && |ev| <= 1 && c.open == old(c.open)
    {
      hide ChannelOk, Inv;
      assert c.Mirrors(model.chans[c]);
      if c.buf == [] {
        return [];
      }
      ReceiveKeepsInv(model, c);
      ev := [c.buf[0]];
      c.buf := c.buf[1..];
      model := Receive(model, c);
    }
  }
}
