/**
 The code of the hub, the read and write loops and the replay over mutable clients. Every method is proved to be a
 run of the interleaved machine of Delivery: the objects show the machine state `view`, which some run of the machine
 reaches. Ranging over the client map visits clients in an arbitrary order.
 */
module HubService {
  import opened Common
  import D = Delivery
  import P = DeliveryProofs

  /** A connected peer; a frame on its channel stands for the payload the frame carries. */
  class Client {
    /** Position among all clients that ever connected. */
    ghost const id: nat
    const userId: string
    var subscriptions: set<string>
    var send: seq<D.Frame>
    var closed: bool

    constructor (userId: string, ghost id: nat)
      ensures this.id == id && this.userId == userId && subscriptions == {} && send == [] && !closed
    {
      this.userId := userId;
      this.id := id;
      subscriptions, send, closed := {}, [], false;
    }

    /** The channel holds what was enqueued and not yet drained. */
    ghost predicate Shows(v: D.Client)
      reads this
    {
      && v.user == userId && v.subs == subscriptions
      && v.drained <= |v.log| && send == v.log[v.drained..]
      && closed == (v.closes > 0)
    }
  }

  datatype SendResult = Sent | Dropped | Panicked

  /** What a select with a default branch makes of the client. */
  ghost function AfterSend(v: D.Client, f: D.Frame): D.Client {
    if v.closes > 0 then v.(crash := true) else v.Offer(f)
  }

  /** A select with a default branch; on a closed channel it panics. */
  method TrySend(c: Client, f: D.Frame, ghost v: D.Client) returns (r: SendResult)
    requires c.Shows(v)
    modifies c`send
    ensures c.Shows(AfterSend(v, f))
    ensures r == if c.closed then Panicked else if v.HasRoom() then Sent else Dropped
    ensures c.send == if r == Sent then old(c.send) + [f] else old(c.send)
  {
    if c.closed {
      return Panicked;
    }
    if |c.send| < D.SEND_BUFFER {
      c.send := c.send + [f];
      return Sent;
    }
    return Dropped;
  }

  /** What a receive makes of the client. */
  ghost function AfterReceive(v: D.Client): D.Client {
    if v.drained < |v.log| then v.(drained := v.drained + 1) else v
  }

  /** A receive from a channel that is not empty or has been closed. */
  method Receive(c: Client, ghost v: D.Client) returns (f: Option<D.Frame>)
    requires c.Shows(v) && (c.send != [] || c.closed)
    modifies c`send
    ensures c.Shows(AfterReceive(v))
    ensures f.None? <==> old(c.send) == []
    ensures old(c.send) == (if f.Some? then [f.value] else []) + c.send
  {
    if c.send == [] {
      return None;
    }
    f := Some(c.send[0]);
    c.send := c.send[1..];
  }

  /** The client wants this broadcast and has no room for it. */
  ghost predicate Slow(c: Client, m: D.Msg)
    reads c
  {
    m.project in c.subscriptions && |c.send| >= D.SEND_BUFFER
  }

  /** One client's part of a fan-out: the frame if it is subscribed and has room, a closed channel if it has none. */
  method OfferTo(c: Client, m: D.Msg, ghost v: D.Client) returns (stays: bool)
    requires c.Shows(v) && v.closes == 0
    modifies c`send, c`closed
    ensures c.Shows(D.DeliverTo(v, m).0) && stays == D.DeliverTo(v, m).1 == !old(Slow(c, m))
    ensures c.closed == !stays
    ensures c.send == if m.project in c.subscriptions && stays then old(c.send) + [D.Live(m.tok, m.project)] else old(c.send)
  {
    stays := true;
    if m.project in c.subscriptions {
      var r := TrySend(c, D.Live(m.tok, m.project), v);
      if r == Dropped {
        c.closed := true;
        stays := false;
      }
    }
  }

  ghost predicate Known(roster: seq<Client>, c: Client) {
    c.id < |roster| && roster[c.id] == c
  }

  ghost predicate ClientsShown(roster: seq<Client>, vs: seq<D.Client>)
    reads roster
  {
    |roster| == |vs| && forall i :: 0 <= i < |roster| ==> roster[i].id == i && roster[i].Shows(vs[i])
  }

  ghost predicate MapShown(roster: seq<Client>, clients: set<Client>, ids: set<nat>) {
    && (forall c | c in clients :: Known(roster, c) && c.id in ids)
    && (forall n | n in ids :: n < |roster| && roster[n] in clients)
  }

  ghost predicate QueueShown(roster: seq<Client>, queue: seq<Client>, ids: seq<nat>) {
    |queue| == |ids| && forall i :: 0 <= i < |queue| ==> Known(roster, queue[i]) && queue[i].id == ids[i]
  }

  lemma {:induction false} MapWithout(roster: seq<Client>, clients: set<Client>, ids: set<nat>, c: Client)
    requires MapShown(roster, clients, ids) && Known(roster, c)
    requires forall i :: 0 <= i < |roster| ==> roster[i].id == i
    ensures MapShown(roster, clients - {c}, ids - {c.id})
  {
  }

  /** The state is reached by some run of the machine. */
  ghost predicate Reached(s: D.State) {
    exists steps :: s == D.Exec(D.Start(), steps)
  }

  lemma {:induction false} ReachedNext(s: D.State, st: D.Step)
    requires Reached(s)
    ensures Reached(D.Next(s, st))
  {
    var steps :| s == D.Exec(D.Start(), steps);
    assert (steps + [st])[..|steps|] == steps;
    assert D.Next(s, st) == D.Exec(D.Start(), steps + [st]);
  }

  lemma {:induction false} ReachedKeepsInv(s: D.State)
    requires Reached(s)
    ensures P.Inv(s)
  {
    var steps :| s == D.Exec(D.Start(), steps);
    P.RunKeepsInv(steps);
  }

  /** What the hub relies on: clients in the map, and clients being visited, have open channels. */
  lemma {:induction false} ReachedIsOpen(s: D.State)
    requires Reached(s)
    ensures forall n | n in s.hub.registered :: n < |s.clients| && s.clients[n].closes == 0 && n !in s.hub.register
    ensures forall n | 0 <= n < |s.clients| :: s.clients[n].closes <= 1
    ensures s.hub.todo <= s.hub.registered && (s.hub.todo != {} ==> s.hub.taken != [])
  {
    ReachedKeepsInv(s);
  }

  /** What a fan-out does to the membership of one client and to the frames in its channel. */
  lemma {:induction false} FanOutShows(s: D.State, n: nat)
    requires Reached(s) && s.hub.todo == {} && s.store.queue != [] && n in s.hub.registered && n < |s.clients|
    requires s.clients[n].drained <= |s.clients[n].log|
    ensures var (v, m, t) := (s.clients[n], s.store.queue[0], P.FanOut(s));
            && n < |t.clients|
            && var (w, send) := (t.clients[n], v.log[v.drained..]);
               var slow := m.project in v.subs && |send| >= D.SEND_BUFFER;
               && slow == (n !in t.hub.registered) && (w.closes > 0) == slow
               && w.drained <= |w.log|
               && w.log[w.drained..] == if m.project in v.subs && !slow then send + [D.Live(m.tok, m.project)] else send
  {
    ReachedKeepsInv(s);
    assert P.FanOut(s).clients[n] == D.DeliverTo(s.clients[n], s.store.queue[0]).0;
  }

  /** Since the broadcast was taken, the clients in `order` have been visited, each once. */
  ghost predicate Visiting(taken: D.State, s: D.State, order: seq<nat>) {
    && s == D.Exec(taken, P.Deliveries(order))
    && taken.hub.taken != [] && s.hub.taken == taken.hub.taken
    && P.NoRepeats(order) && P.Visited(order) == taken.hub.registered - s.hub.todo
  }

  lemma {:induction false} VisitNobody(taken: D.State)
    requires taken.hub.taken != [] && taken.hub.todo == taken.hub.registered
    ensures Visiting(taken, taken, [])
  {
    assert P.Deliveries([]) == [];
  }

  lemma {:induction false} NobodyLeft(roster: seq<Client>, ids: set<nat>)
    requires MapShown(roster, {}, ids)
    ensures ids == {}
  {
    assert forall n :: n !in ids;
  }

  lemma {:induction false} VisitOneMore(taken: D.State, s: D.State, order: seq<nat>, n: nat)
    requires Visiting(taken, s, order) && n in s.hub.todo && s.hub.todo <= taken.hub.registered && n < |s.clients|
    ensures var t := D.Next(s, D.HubDeliver(n));
            Visiting(taken, t, order + [n]) && t.hub.todo == s.hub.todo - {n}
  {
    assert P.Deliveries(order + [n])[..|order|] == P.Deliveries(order);
    assert P.Visited(order + [n]) == P.Visited(order) + {n};
  }

  function Revocations(order: seq<nat>, project: string, userId: string): seq<D.Step> {
    seq(|order|, i requires 0 <= i < |order| => D.Peer(order[i], D.Revoke(project, userId)))
  }

  /** What BroadcastAccessRevoked makes of a client. */
  ghost function Told(v: D.Client, project: string, userId: string): D.Client {
    if project in v.subs && v.user == userId then v.Offer(D.Revoked(project)) else v
  }

  /** Since `start`, the clients in `order` have been told, each once, and those in `todo` are still to be told. */
  ghost predicate Revoking(start: D.State, s: D.State, order: seq<nat>, todo: set<nat>, project: string, userId: string) {
    && s == D.Exec(start, Revocations(order, project, userId)) && s.hub == start.hub
    && P.NoRepeats(order) && todo <= s.hub.registered && P.Visited(order) == s.hub.registered - todo
  }

  lemma {:induction false} RevokeNobody(s: D.State, project: string, userId: string)
    ensures Revoking(s, s, [], s.hub.registered, project, userId)
  {
    assert Revocations([], project, userId) == [];
  }

  lemma {:induction false} RevokeOneMore(
    start: D.State, s: D.State, order: seq<nat>, todo: set<nat>, n: nat, project: string, userId: string)
    requires Revoking(start, s, order, todo, project, userId) && n in todo
    ensures Revoking(start, D.Next(s, D.Peer(n, D.Revoke(project, userId))), order + [n], todo - {n}, project, userId)
  {
    assert Revocations(order + [n], project, userId)[..|order|] == Revocations(order, project, userId);
    assert P.Visited(order + [n]) == P.Visited(order) + {n};
  }

  /** One step of a BroadcastAccessRevoked. */
  lemma {:induction false} RevokeTells(s: D.State, k: nat, project: string, userId: string, n: nat)
    requires n < |s.clients| && s.clients[n].closes == 0 && n in s.hub.registered
    ensures var t := D.Next(s, D.Peer(k, D.Revoke(project, userId)));
            && t.hub == s.hub && |t.clients| == |s.clients|
            && t.clients[n] == if k == n then Told(s.clients[n], project, userId) else s.clients[n]
  {
  }

  /** Each client told once has been offered the frame if it is the member's and subscribed. */
  lemma {:induction false} RevocationsTell(s: D.State, order: seq<nat>, project: string, userId: string, n: nat)
    requires P.NoRepeats(order) && n < |s.clients| && s.clients[n].closes == 0 && n in s.hub.registered
    ensures var t := D.Exec(s, Revocations(order, project, userId));
            && t.hub == s.hub && |t.clients| == |s.clients|
            && t.clients[n] == if n in order then Told(s.clients[n], project, userId) else s.clients[n]
  {
    if order != [] {
      var k := |order| - 1;
      assert Revocations(order, project, userId)[..k] == Revocations(order[..k], project, userId);
      RevocationsTell(s, order[..k], project, userId, n);
      RevokeTells(D.Exec(s, Revocations(order[..k], project, userId)), order[k], project, userId, n);
      assert order == order[..k] + [order[k]];
    }
  }

  /** A message of the read loop; `since` is there if it was given and is a number. */
  datatype Incoming = SubscribeTo(project: string, since: Option<int>) | UnsubscribeFrom(project: string) | Unknown

  /** The machine steps of one message, in their order. */
  function StepsOf(n: nat, msg: Incoming): seq<D.Step> {
    match msg
    case SubscribeTo(project, since) => [D.Peer(n, D.Subscribe(project, since)), D.Peer(n, D.SendAck)]
    case UnsubscribeFrom(project) => [D.Peer(n, D.Unsubscribe(project))]
    case Unknown => []
  }

  /** The ack is a select like any other; if it does not panic the reader goes on, after starting the replay. */
  lemma {:induction false} AckShows(s: D.Store, registered: bool, v: D.Client, project: string, since: Option<int>)
    requires v.reader == D.Acking(project, since)
    ensures var w := D.PeerNext(s, registered, v, D.SendAck);
            && w.(replays := v.replays, reader := v.reader) == AfterSend(v, D.Ack(project))
            && (v.closes == 0 ==> w.reader.Idle?)
            && w.replays == v.replays + if v.closes == 0 && since.Some?
                                        then [D.Replay(project, since.value, D.Querying, [], 0, 0, 0)] else []
  {
  }

  lemma {:induction false} OneStep(s: D.State, a: D.Step)
    ensures D.Exec(s, [a]) == D.Next(s, a)
  {
    assert [a][..0] == [];
  }

  lemma {:induction false} TwoSteps(s: D.State, a: D.Step, b: D.Step)
    ensures D.Exec(s, [a, b]) == D.Next(D.Next(s, a), b)
  {
    assert [a, b][..1] == [a];
    OneStep(s, a);
  }

  /** The frames of a replay: a resync alone if the query returned as many rows as it may, else the payloads. */
  function FramesOf(r: nat, project: string, rows: seq<D.Row>): seq<D.Frame> {
    if |rows| == D.MAX_REPLAY then [D.Resync(r, project)]
    else seq(|rows|, i requires 0 <= i < |rows| => D.Replayed(r, rows[i].tok))
  }

  /** Replay `r` of client `n` has the rows and has gone through its first `k` frames. */
  ghost predicate Replaying(s: D.State, n: nat, r: nat, project: string, rows: seq<D.Row>, k: nat) {
    n < |s.clients| && r < |s.clients[n].replays| && At(s.clients[n].replays[r], project, rows, k)
  }

  ghost predicate At(rp: D.Replay, project: string, rows: seq<D.Row>, k: nat) {
    && rp.project == project && rp.rows == rows
    && (if |rows| == D.MAX_REPLAY then rp.phase == if k == 0 then D.Resyncing else D.Ended
        else rp.phase.Sending? && rp.next == k)
  }

  /** A replay's send is the select of its next frame, and the replay moves on unless the channel is closed. */
  lemma {:induction false} SendReplayShows(
    s: D.Store, registered: bool, v: D.Client, r: nat, project: string, rows: seq<D.Row>, k: nat)
    requires r < |v.replays| && k < |FramesOf(r, project, rows)| && At(v.replays[r], project, rows, k)
    ensures var w := D.PeerNext(s, registered, v, D.SendReplay(r));
            && w.(replays := v.replays) == AfterSend(v, FramesOf(r, project, rows)[k])
            && r < |w.replays| && (v.closes == 0 ==> At(w.replays[r], project, rows, k + 1))
  {
  }

  ghost predicate Finished(s: D.State, n: nat, r: nat) {
    n < |s.clients| && r < |s.clients[n].replays| && s.clients[n].replays[r].phase.Ended?
  }

  /** What of the frames fits a channel that already holds `used`. */
  function Fitting(used: nat, frames: seq<D.Frame>): seq<D.Frame> {
    var room := if used < D.SEND_BUFFER then D.SEND_BUFFER - used else 0;
    if |frames| <= room then frames else frames[..room]
  }

  lemma {:induction false} FittingSnoc(used: nat, frames: seq<D.Frame>, k: nat)
    requires k < |frames|
    ensures var before, after := Fitting(used, frames[..k]), Fitting(used, frames[..k + 1]);
            after == if used + |before| < D.SEND_BUFFER then before + [frames[k]] else before
  {
  }

  /** One more frame for a channel that held `before` when the frames began. */
  lemma {:induction false} OneMoreFits(before: seq<D.Frame>, send: seq<D.Frame>, frames: seq<D.Frame>, k: nat)
    requires k < |frames| && send == before + Fitting(|before|, frames[..k])
    ensures (if |send| < D.SEND_BUFFER then send + [frames[k]] else send) == before + Fitting(|before|, frames[..k + 1])
  {
    FittingSnoc(|before|, frames, k);
  }

  function Repeated(st: D.Step, n: nat): seq<D.Step> {
    seq(n, _ => st)
  }

  lemma {:induction false} RepeatedSnoc(s: D.State, st: D.Step, n: nat)
    ensures D.Exec(s, Repeated(st, 0)) == s
    ensures D.Exec(s, Repeated(st, n + 1)) == D.Next(D.Exec(s, Repeated(st, n)), st)
  {
    assert Repeated(st, n + 1)[..n] == Repeated(st, n);
  }

  class Hub {
    var broadcast: seq<D.Msg>
    var register: seq<Client>
    var unregister: seq<Client>
    var clients: set<Client>
    /** Every client that ever connected, and the machine state shown. */
    ghost var roster: seq<Client>
    ghost var view: D.State

    /** The objects show a machine state that some run reaches. */
    ghost predicate Valid()
      reads this, roster
    {
      && Reached(view)
      && ClientsShown(roster, view.clients)
      && MapShown(roster, clients, view.hub.registered)
      && QueueShown(roster, register, view.hub.register)
      && QueueShown(roster, unregister, view.hub.unregister)
      && broadcast == view.store.queue
    }

    constructor ()
      ensures Valid() && view == D.Start()
    {
      broadcast, register, unregister, clients := [], [], [], {};
      roster, view := [], D.Start();
      new;
      assert view == D.Exec(D.Start(), []);
    }

    /** A new connection announces itself; the send blocks while the channel is full. */
    method Connect(userId: string) returns (c: Client)
      requires Valid() && |register| < D.REGISTER_BUFFER
      modifies this`register, this`roster, this`view
      ensures Valid() && view == D.Next(old(view), D.Connect(userId))
      ensures fresh(c) && register == old(register) + [c]
      ensures c.userId == userId && c.subscriptions == {} && c.send == [] && !c.closed
    {
      c := new Client(userId, |roster|);
      ConnectStep(userId);
      register := register + [c];
      roster := roster + [c];
    }

    ghost method ConnectStep(userId: string)
      requires Reached(view) && |view.hub.register| < D.REGISTER_BUFFER
      modifies this`view
      ensures Reached(view) && view == D.Next(old(view), D.Connect(userId)) && view.store == old(view).store
      ensures view.clients == old(view).clients + [D.NewClient(userId)]
      ensures view.hub == old(view).hub.(register := old(view).hub.register + [|old(view).clients|])
    {
      ReachedNext(view, D.Connect(userId));
      view := D.Next(view, D.Connect(userId));
    }

    /** Hub.Broadcast at the end of fanOutEvent; it blocks while the channel is full. */
    method Broadcast(m: D.Msg)
      requires Valid() && |broadcast| < D.BROADCAST_BUFFER
      requires m.tok < |view.store.pubs| && view.store.pubs[m.tok] == D.Pub(m.project, D.Broadcasting)
      modifies this`broadcast, this`view
      ensures Valid() && view == D.Next(old(view), D.InStore(D.Broadcast(m.tok)))
      ensures broadcast == old(broadcast) + [m]
    {
      ReachedNext(view, D.InStore(D.Broadcast(m.tok)));
      broadcast := broadcast + [m];
      view := D.Next(view, D.InStore(D.Broadcast(m.tok)));
    }

    method RunRegister()
      requires Valid() && register != [] && view.hub.todo == {}
      modifies this`register, this`clients, this`view
      ensures Valid() && view == D.Next(old(view), D.HubRegister)
      ensures register == old(register)[1..] && clients == old(clients) + {old(register)[0]}
    {
      var c := register[0];
      RegisterStep();
      register := register[1..];
      clients := clients + {c};
    }

    ghost method RegisterStep()
      requires Reached(view) && view.hub.register != [] && view.hub.todo == {}
      modifies this`view
      ensures Reached(view) && view == D.Next(old(view), D.HubRegister)
      ensures view.store == old(view).store && view.clients == old(view).clients
      ensures var (hub, n) := (old(view).hub, old(view).hub.register[0]);
              view.hub == hub.(register := hub.register[1..], registered := hub.registered + {n})
    {
      ReachedNext(view, D.HubRegister);
      view := D.Next(view, D.HubRegister);
    }

    method RunUnregister()
      requires Valid() && unregister != [] && view.hub.todo == {}
      modifies this`unregister, this`clients, this`view, clients`closed
      ensures Valid() && view == D.Next(old(view), D.HubUnregister)
      ensures unregister == old(unregister)[1..] && clients == old(clients) - {old(unregister)[0]}
      ensures forall c | c in old(clients) :: c.closed == (c == old(unregister)[0])
    {
      MapIsOpen();
      var c := unregister[0];
      if c in clients {
        Remove(c);
      } else {
        Forget(c);
      }
    }

    /** Clients in the map have open channels. */
    lemma {:induction false} MapIsOpen()
      requires Valid()
      ensures forall c | c in clients :: !c.closed
    {
      ReachedIsOpen(view);
      forall c | c in clients
        ensures !c.closed
      {
        assert Known(roster, c) && c.Shows(view.clients[c.id]);
      }
    }

    method Remove(c: Client)
      requires Valid() && unregister != [] && view.hub.todo == {} && c == unregister[0] && c in clients
      modifies this`unregister, this`clients, this`view, c`closed
      ensures Valid() && view == D.Next(old(view), D.HubUnregister)
      ensures unregister == old(unregister)[1..] && clients == old(clients) - {c} && c.closed
    {
      MapWithout(roster, clients, view.hub.registered, c);
      RemoveStep(c.id);
      unregister := unregister[1..];
      clients := clients - {c};
      c.closed := true;
    }

    ghost method RemoveStep(n: nat)
      requires Reached(view) && view.hub.unregister != [] && view.hub.todo == {}
      requires n == view.hub.unregister[0] && n in view.hub.registered && n < |view.clients|
      modifies this`view
      ensures Reached(view) && view == D.Next(old(view), D.HubUnregister) && view.store == old(view).store
      ensures var hub := old(view).hub;
              view.hub == hub.(unregister := hub.unregister[1..], registered := hub.registered - {n})
      ensures view.clients == old(view).clients[n := old(view).clients[n].(closes := 1)]
    {
      ReachedIsOpen(view);
      ReachedNext(view, D.HubUnregister);
      view := D.Next(view, D.HubUnregister);
    }

    method Forget(c: Client)
      requires Valid() && unregister != [] && view.hub.todo == {} && c == unregister[0] && c !in clients
      modifies this`unregister, this`view
      ensures Valid() && view == D.Next(old(view), D.HubUnregister)
      ensures unregister == old(unregister)[1..]
    {
      ForgetStep(c.id);
      unregister := unregister[1..];
    }

    ghost method ForgetStep(n: nat)
      requires Reached(view) && view.hub.unregister != [] && view.hub.todo == {}
      requires n == view.hub.unregister[0] && n !in view.hub.registered
      modifies this`view
      ensures Reached(view) && view == D.Next(old(view), D.HubUnregister)
      ensures view.store == old(view).store && view.clients == old(view).clients
      ensures view.hub == old(view).hub.(unregister := old(view).hub.unregister[1..])
    {
      ReachedNext(view, D.HubUnregister);
      view := D.Next(view, D.HubUnregister);
    }

    /** The body of the range loop: offer the broadcast to one client, and remove the client if it has no room. */
    method DeliverOne(c: Client, m: D.Msg)
      requires Valid() && c in clients && c.id in view.hub.todo && view.hub.taken != [] && m == view.hub.taken[|view.hub.taken| - 1]
      modifies this`clients, this`view, c`send, c`closed
      ensures Valid() && view == D.Next(old(view), D.HubDeliver(c.id))
      ensures clients == if old(Slow(c, m)) then old(clients) - {c} else old(clients)
      ensures c.closed == old(Slow(c, m))
      ensures c.send == if m.project in c.subscriptions && !old(Slow(c, m))
                        then old(c.send) + [D.Live(m.tok, m.project)] else old(c.send)
    {
      ghost var v := view.clients[c.id];
      ReachedIsOpen(view);
      MapWithout(roster, clients, view.hub.registered, c);
      DeliverStep(c.id, m);
      var stays := OfferTo(c, m, v);
      if !stays {
        clients := clients - {c};
      }
    }

    /** The machine offers the broadcast to one client; the objects are still to follow. */
    ghost method DeliverStep(n: nat, m: D.Msg)
      requires Reached(view) && n in view.hub.todo && n < |view.clients| && view.hub.taken != []
      requires m == view.hub.taken[|view.hub.taken| - 1]
      modifies this`view
      ensures Reached(view) && view == D.Next(old(view), D.HubDeliver(n)) && view.store == old(view).store
      ensures view.clients == old(view).clients[n := D.DeliverTo(old(view).clients[n], m).0]
      ensures view.hub.registered == old(view).hub.registered - if D.DeliverTo(old(view).clients[n], m).1 then {} else {n}
      ensures view.hub.register == old(view).hub.register && view.hub.unregister == old(view).hub.unregister
    {
      ReachedNext(view, D.HubDeliver(n));
      view := D.Next(view, D.HubDeliver(n));
    }

    /**
     Fan-out of one broadcast. In the machine it is one HubTake followed by one HubDeliver for every registered
     client, in the order of the map's iteration, and its outcome does not depend on that order: every subscribed
     client with room gets exactly this frame, every one without room is removed and closed, nobody else changes.
     */
    method RunBroadcast() returns (ghost order: seq<nat>)
      requires Valid() && broadcast != [] && view.hub.todo == {}
      modifies this`broadcast, this`clients, this`view, clients`send, clients`closed
      ensures Valid() && view.hub.todo == {} && roster == old(roster)
      ensures view == D.Exec(D.Next(old(view), D.HubTake), P.Deliveries(order)) == P.FanOut(old(view))
      ensures P.NoRepeats(order) && P.Visited(order) == old(view).hub.registered
      ensures broadcast == old(broadcast)[1..]
      ensures var m := old(broadcast)[0];
              && (forall c | c in old(clients) :: c in clients <==> !old(Slow(c, m)))
              && clients <= old(clients)
              && (forall c | c in old(clients) :: c.closed == old(Slow(c, m)))
              && (forall c | c in old(clients) ::
                    c.send == if m.project in c.subscriptions && !old(Slow(c, m))
                              then old(c.send) + [D.Live(m.tok, m.project)] else old(c.send))
    {
      var m := broadcast[0];
      order := VisitAll(m);
      ReachedKeepsInv(old(view));
      P.FanOutIgnoresOrder(old(view), order);
      forall c | c in old(clients)
        ensures c in clients <==> !old(Slow(c, m))
        ensures c.closed == old(Slow(c, m))
        ensures c.send == if m.project in c.subscriptions && !old(Slow(c, m))
                          then old(c.send) + [D.Live(m.tok, m.project)] else old(c.send)
      {
        FanOutShows(old(view), c.id);
        assert c.Shows(view.clients[c.id]) && old(c.Shows(view.clients[c.id]));
      }
    }

    /** The receive and the range loop. */
    method VisitAll(m: D.Msg) returns (ghost order: seq<nat>)
      requires Valid() && broadcast != [] && m == broadcast[0] && view.hub.todo == {}
      modifies this`broadcast, this`clients, this`view, clients`send, clients`closed
      ensures Valid() && view.hub.todo == {} && roster == old(roster) && clients <= old(clients)
      ensures view == D.Exec(D.Next(old(view), D.HubTake), P.Deliveries(order))
      ensures P.NoRepeats(order) && P.Visited(order) == old(view).hub.registered
      ensures broadcast == old(broadcast)[1..]
    {
      TakeBroadcast();
      ghost var taken := view;
      order := [];
      var remaining := clients;
      while remaining != {}
        invariant Midway(taken, remaining, order) && taken.hub.taken[|taken.hub.taken| - 1] == m
        invariant clients <= old(clients) && remaining <= clients && broadcast == old(broadcast)[1..]
        decreases remaining
      {
        var c :| c in remaining;
        assert remaining - {c} < remaining;
        VisitOne(c, m, taken, remaining, order);
        remaining, order := remaining - {c}, order + [c.id];
      }
      NobodyLeft(roster, view.hub.todo);
    }

    /** The range loop has visited `order` since the broadcast was taken and has still to visit `remaining`. */
    ghost predicate Midway(taken: D.State, remaining: set<Client>, order: seq<nat>)
      reads this, roster
    {
      && Valid() && Visiting(taken, view, order)
      && view.hub.todo <= taken.hub.registered && MapShown(roster, remaining, view.hub.todo)
    }

    method VisitOne(c: Client, m: D.Msg, ghost taken: D.State, ghost remaining: set<Client>, ghost order: seq<nat>)
      requires Midway(taken, remaining, order) && c in remaining && c in clients
      requires taken.hub.taken[|taken.hub.taken| - 1] == m
      modifies this`clients, this`view, c`send, c`closed
      ensures Midway(taken, remaining - {c}, order + [c.id])
      ensures clients == if old(Slow(c, m)) then old(clients) - {c} else old(clients)
    {
      MapWithout(roster, remaining, view.hub.todo, c);
      VisitOneMore(taken, view, order, c.id);
      DeliverOne(c, m);
    }

    /** The receive from the broadcast channel. */
    method TakeBroadcast()
      requires Valid() && broadcast != [] && view.hub.todo == {}
      modifies this`broadcast, this`view
      ensures Valid() && view == D.Next(old(view), D.HubTake)
      ensures broadcast == old(broadcast)[1..] && view.hub.registered == old(view).hub.registered
      ensures Midway(view, clients, []) && view.hub.taken[|view.hub.taken| - 1] == old(broadcast)[0]
    {
      ReachedNext(view, D.HubTake);
      broadcast := broadcast[1..];
      view := D.Next(view, D.HubTake);
      VisitNobody(view);
    }

    // ---------- the steps of a connection ----------

    /** BroadcastAccessRevoked for one client of the map; nobody is removed. */
    method RevokeOne(c: Client, project: string, userId: string)
      requires Valid() && c in clients
      modifies this`view, c`send
      ensures Valid() && view == D.Next(old(view), D.Peer(c.id, D.Revoke(project, userId)))
      ensures c.send == if project in c.subscriptions && c.userId == userId && |old(c.send)| < D.SEND_BUFFER
                        then old(c.send) + [D.Revoked(project)] else old(c.send)
    {
      ReachedIsOpen(view);
      PeerStep(c.id, D.Revoke(project, userId));
      if project in c.subscriptions && c.userId == userId {
        var _ := TrySend(c, D.Revoked(project), old(view).clients[c.id]);
      }
    }

    /**
     Only the revoked member's subscribed clients get the frame, those with room for it. In the machine it is one
     Revoke step for every client of the map, in the order of its iteration.
     */
    method BroadcastAccessRevoked(project: string, userId: string) returns (ghost order: seq<nat>)
      requires Valid()
      modifies this`view, clients`send
      ensures Valid() && view == D.Exec(old(view), Revocations(order, project, userId))
      ensures P.NoRepeats(order) && P.Visited(order) == view.hub.registered
      ensures forall c | c in clients ::
                c.send == if project in c.subscriptions && c.userId == userId && |old(c.send)| < D.SEND_BUFFER
                          then old(c.send) + [D.Revoked(project)] else old(c.send)
    {
      ReachedIsOpen(view);
      order := TellAll(project, userId);
      forall c | c in clients
        ensures c.send == if project in c.subscriptions && c.userId == userId && |old(c.send)| < D.SEND_BUFFER
                          then old(c.send) + [D.Revoked(project)] else old(c.send)
      {
        RevocationsTell(old(view), order, project, userId, c.id);
        assert c.id in P.Visited(order);
        assert c.Shows(view.clients[c.id]) && old(c.Shows(view.clients[c.id]));
      }
    }

    /** The range loop. */
    method TellAll(project: string, userId: string) returns (ghost order: seq<nat>)
      requires Valid()
      modifies this`view, clients`send
      ensures Valid() && Revoking(old(view), view, order, {}, project, userId)
    {
      order := [];
      var remaining := clients;
      ghost var todo := view.hub.registered;
      RevokeNobody(view, project, userId);
      while remaining != {}
        invariant Telling(old(view), remaining, order, todo, project, userId) && remaining <= clients
        decreases remaining
      {
        var c :| c in remaining;
        assert remaining - {c} < remaining;
        TellOne(c, project, userId, old(view), remaining, order, todo);
        remaining, todo, order := remaining - {c}, todo - {c.id}, order + [c.id];
      }
      NobodyLeft(roster, todo);
    }

    /** The range loop has told `order` since `start` and has still to tell `remaining`, the clients in `todo`. */
    ghost predicate Telling(
      start: D.State, remaining: set<Client>, order: seq<nat>, todo: set<nat>, project: string, userId: string)
      reads this, roster
    {
      Valid() && Revoking(start, view, order, todo, project, userId) && MapShown(roster, remaining, todo)
    }

    method TellOne(
      c: Client, project: string, userId: string,
      ghost start: D.State, ghost remaining: set<Client>, ghost order: seq<nat>, ghost todo: set<nat>)
      requires Telling(start, remaining, order, todo, project, userId) && c in remaining && c in clients
      modifies this`view, c`send
      ensures Telling(start, remaining - {c}, order + [c.id], todo - {c.id}, project, userId)
    {
      MapWithout(roster, remaining, todo, c);
      RevokeOneMore(start, view, order, todo, c.id, project, userId);
      RevokeOne(c, project, userId);
    }

    /** The deferred end of the read loop; the send blocks while the channel is full. */
    method Disconnect(c: Client)
      requires Valid() && Known(roster, c) && view.clients[c.id].reader.Idle? && |unregister| < D.REGISTER_BUFFER
      modifies this`unregister, this`view
      ensures Valid() && view == D.Next(old(view), D.Disconnect(c.id))
      ensures unregister == old(unregister) + [c]
    {
      ReachedNext(view, D.Disconnect(c.id));
      unregister := unregister + [c];
      view := D.Next(view, D.Disconnect(c.id));
    }

    /** One receive of the write loop: frames leave in the order they came, and the end shows only when none is left. */
    method WriteNext(c: Client) returns (f: Option<D.Frame>)
      requires Valid() && Known(roster, c) && (c.send != [] || c.closed)
      modifies this`view, c`send
      ensures Valid() && view == D.Next(old(view), D.Peer(c.id, D.Drain))
      ensures f.None? <==> old(c.send) == []
      ensures old(c.send) == (if f.Some? then [f.value] else []) + c.send
    {
      ghost var v := view.clients[c.id];
      PeerStep(c.id, D.Drain);
      assert view.clients[c.id] == AfterReceive(v);
      f := Receive(c, v);
    }

    /**
     One message of the read loop. A subscribe changes the subscriptions first, then offers the ack (dropped without
     room, a panic if the hub has closed the channel), then starts the replay; unknown messages change nothing.
     */
    method HandleMessage(c: Client, msg: Incoming) returns (panicked: bool)
      requires Valid() && Known(roster, c) && view.clients[c.id].reader.Idle?
      modifies this`view, c`subscriptions, c`send
      ensures Valid() && view == D.Exec(old(view), StepsOf(c.id, msg))
      ensures panicked == (msg.SubscribeTo? && c.closed)
      ensures !panicked ==> view.clients[c.id].reader.Idle?
      ensures c.subscriptions == match msg
                                 case SubscribeTo(project, _) => old(c.subscriptions) + {project}
                                 case UnsubscribeFrom(project) => old(c.subscriptions) - {project}
                                 case Unknown => old(c.subscriptions)
      ensures c.send == if msg.SubscribeTo? && !panicked && |old(c.send)| < D.SEND_BUFFER
                        then old(c.send) + [D.Ack(msg.project)] else old(c.send)
      ensures view.clients[c.id].replays == old(view).clients[c.id].replays
                                            + if msg.SubscribeTo? && !panicked && msg.since.Some?
                                              then [D.Replay(msg.project, msg.since.value, D.Querying, [], 0, 0, 0)] else []
    {
      panicked := false;
      match msg {
        case SubscribeTo(project, since) =>
          TwoSteps(view, D.Peer(c.id, D.Subscribe(project, since)), D.Peer(c.id, D.SendAck));
          Subscribe(c, project, since);
          panicked := SendAck(c, project, since);
        case UnsubscribeFrom(project) =>
          OneStep(view, D.Peer(c.id, D.Unsubscribe(project)));
          Unsubscribe(c, project);
        case Unknown =>
      }
    }

    method Subscribe(c: Client, project: string, ghost since: Option<int>)
      requires Valid() && Known(roster, c) && view.clients[c.id].reader.Idle?
      modifies this`view, c`subscriptions
      ensures Valid() && view == D.Next(old(view), D.Peer(c.id, D.Subscribe(project, since)))
      ensures view.clients[c.id].reader == D.Acking(project, since)
      ensures view.clients[c.id].replays == old(view).clients[c.id].replays
      ensures c.subscriptions == old(c.subscriptions) + {project}
    {
      PeerStep(c.id, D.Subscribe(project, since));
      c.subscriptions := c.subscriptions + {project};
    }

    method Unsubscribe(c: Client, project: string)
      requires Valid() && Known(roster, c) && view.clients[c.id].reader.Idle?
      modifies this`view, c`subscriptions
      ensures Valid() && view == D.Next(old(view), D.Peer(c.id, D.Unsubscribe(project)))
      ensures view.clients[c.id].reader.Idle? && view.clients[c.id].replays == old(view).clients[c.id].replays
      ensures c.subscriptions == old(c.subscriptions) - {project}
    {
      PeerStep(c.id, D.Unsubscribe(project));
      c.subscriptions := c.subscriptions - {project};
    }

    method SendAck(c: Client, project: string, ghost since: Option<int>) returns (panicked: bool)
      requires Valid() && Known(roster, c) && view.clients[c.id].reader == D.Acking(project, since)
      modifies this`view, c`send
      ensures Valid() && view == D.Next(old(view), D.Peer(c.id, D.SendAck))
      ensures panicked == c.closed && (!panicked ==> view.clients[c.id].reader.Idle?)
      ensures c.send == if !panicked && |old(c.send)| < D.SEND_BUFFER then old(c.send) + [D.Ack(project)] else old(c.send)
      ensures view.clients[c.id].replays == old(view).clients[c.id].replays
                                            + if !panicked && since.Some?
                                              then [D.Replay(project, since.value, D.Querying, [], 0, 0, 0)] else []
    {
      ghost var v := view.clients[c.id];
      AckShows(view.store, c.id in view.hub.registered, v, project, since);
      PeerStep(c.id, D.SendAck);
      var r := TrySend(c, D.Ack(project), v);
      panicked := r == Panicked;
    }

    /** The query of a replay. */
    method QueryEvents(c: Client, ghost r: nat, project: string, since: int, ok: bool, events: seq<D.Row>)
      returns (rows: seq<D.Row>)
      requires Valid() && Known(roster, c) && events == view.store.events && r < |view.clients[c.id].replays|
      requires var rp := view.clients[c.id].replays[r]; rp.phase.Querying? && rp.project == project && rp.since == since
      modifies this`view
      ensures Valid() && view == D.Next(old(view), D.Peer(c.id, D.Query(r, ok)))
      ensures ok ==> Replaying(view, c.id, r, project, rows, 0) && rows == D.Select(events, project, since)
    {
      PeerStep(c.id, D.Query(r, ok));
      rows := if ok then D.Select(events, project, since) else [];
    }

    /** One pass through a replay's select, whatever happened since the last one. */
    method SendOne(c: Client, ghost r: nat, project: string, rows: seq<D.Row>, k: nat, f: D.Frame) returns (sent: SendResult)
      requires Valid() && Known(roster, c) && Replaying(view, c.id, r, project, rows, k)
      requires k < |FramesOf(r, project, rows)| && f == FramesOf(r, project, rows)[k]
      modifies this`view, c`send
      ensures Valid() && view == D.Next(old(view), D.Peer(c.id, D.SendReplay(r)))
      ensures sent == if c.closed then Panicked else if |old(c.send)| < D.SEND_BUFFER then Sent else Dropped
      ensures sent != Panicked ==> Replaying(view, c.id, r, project, rows, k + 1)
      ensures c.send == if sent == Sent then old(c.send) + [f] else old(c.send)
    {
      ghost var v := view.clients[c.id];
      SendReplayShows(view.store, c.id in view.hub.registered, v, r, project, rows, k);
      PeerStep(c.id, D.SendReplay(r));
      sent := TrySend(c, f, v);
    }

    /**
     A whole replay with nothing in between: the resync frame or as many payloads as fit, oldest first; on a closed
     channel it panics as soon as it has a frame to send. In the machine it is a Query and then SendReplay steps.
     */
    method ReplayEvents(c: Client, r: nat, project: string, since: int, ok: bool, events: seq<D.Row>)
      returns (panicked: bool, ghost n: nat)
      requires Valid() && Known(roster, c) && events == view.store.events && r < |view.clients[c.id].replays|
      requires var rp := view.clients[c.id].replays[r]; rp.phase.Querying? && rp.project == project && rp.since == since
      modifies this`view, c`send
      ensures Valid()
      ensures view == D.Exec(D.Next(old(view), D.Peer(c.id, D.Query(r, ok))), Repeated(D.Peer(c.id, D.SendReplay(r)), n))
      ensures !ok ==> n == 0 && !panicked && c.send == old(c.send)
      ensures ok ==> var frames := FramesOf(r, project, D.Select(events, project, since));
                     && panicked == (c.closed && frames != [])
                     && (!panicked ==> Finished(view, c.id, r))
                     && c.send == old(c.send) + (if c.closed then [] else Fitting(|old(c.send)|, frames))
    {
      var rows := QueryEvents(c, r, project, since, ok, events);
      n, panicked := 0, false;
      if ok {
        panicked, n := SendRows(c, r, project, rows);
      }
    }

    method SendRows(c: Client, r: nat, project: string, rows: seq<D.Row>) returns (panicked: bool, ghost n: nat)
      requires |rows| <= D.MAX_REPLAY
      requires Valid() && Known(roster, c) && Replaying(view, c.id, r, project, rows, 0)
      modifies this`view, c`send
      ensures Valid() && view == D.Exec(old(view), Repeated(D.Peer(c.id, D.SendReplay(r)), n))
      ensures var frames := FramesOf(r, project, rows);
              && panicked == (c.closed && frames != [])
              && (!panicked ==> Finished(view, c.id, r))
              && c.send == old(c.send) + (if c.closed then [] else Fitting(|old(c.send)|, frames))
    {
      if |rows| == D.MAX_REPLAY {
        RepeatedSnoc(view, D.Peer(c.id, D.SendReplay(r)), 0);
        var sent := SendOne(c, r, project, rows, 0, D.Resync(r, project));
        return sent == Panicked, 1;
      }
      panicked, n := SendPayloads(c, r, project, rows);
    }

    /** The loop of a replay has gone through `k` rows since `start`, when the channel held `before`. */
    ghost predicate Sending(
      start: D.State, c: Client, before: seq<D.Frame>, r: nat, project: string, rows: seq<D.Row>, k: nat)
      requires k <= |rows| && |rows| < D.MAX_REPLAY
      reads this, roster, c
    {
      && Valid() && Known(roster, c) && Replaying(view, c.id, r, project, rows, k)
      && view == D.Exec(start, Repeated(D.Peer(c.id, D.SendReplay(r)), k))
      && (c.closed ==> k == 0)
      && c.send == before + if c.closed then [] else Fitting(|before|, FramesOf(r, project, rows)[..k])
    }

    method SendPayload(
      ghost start: D.State, c: Client, ghost before: seq<D.Frame>, r: nat, project: string, rows: seq<D.Row>, k: nat)
      returns (panicked: bool)
      requires k < |rows| < D.MAX_REPLAY && Sending(start, c, before, r, project, rows, k)
      modifies this`view, c`send
      ensures panicked == c.closed
      ensures !panicked ==> Sending(start, c, before, r, project, rows, k + 1)
      ensures panicked ==> Valid() && view == D.Exec(start, Repeated(D.Peer(c.id, D.SendReplay(r)), 1)) && c.send == before
    {
      RepeatedSnoc(start, D.Peer(c.id, D.SendReplay(r)), k);
      ghost var frames := FramesOf(r, project, rows);
      assert frames[k] == D.Replayed(r, rows[k].tok);
      if !c.closed {
        OneMoreFits(before, c.send, frames, k);
      }
      var sent := SendOne(c, r, project, rows, k, D.Replayed(r, rows[k].tok));
      panicked := sent == Panicked;
    }

    method SendPayloads(c: Client, r: nat, project: string, rows: seq<D.Row>) returns (panicked: bool, ghost n: nat)
      requires |rows| < D.MAX_REPLAY
      requires Valid() && Known(roster, c) && Replaying(view, c.id, r, project, rows, 0)
      modifies this`view, c`send
      ensures Valid() && view == D.Exec(old(view), Repeated(D.Peer(c.id, D.SendReplay(r)), n))
      ensures panicked == (c.closed && rows != [])
      ensures !panicked ==> Finished(view, c.id, r)
      ensures c.send == old(c.send) + if c.closed then [] else Fitting(|old(c.send)|, FramesOf(r, project, rows))
    {
      RepeatedSnoc(view, D.Peer(c.id, D.SendReplay(r)), 0);
      var k := 0;
      while k < |rows|
        invariant 0 <= k <= |rows| && Sending(old(view), c, old(c.send), r, project, rows, k)
      {
        panicked := SendPayload(old(view), c, old(c.send), r, project, rows, k);
        if panicked {
          return true, 1;
        }
        k := k + 1;
      }
      EndReplay(old(view), c, old(c.send), r, project, rows);
      return false, k + 1;
    }

    /** The loop of a replay ends. */
    ghost method EndReplay(
      start: D.State, c: Client, before: seq<D.Frame>, r: nat, project: string, rows: seq<D.Row>)
      requires |rows| < D.MAX_REPLAY && Sending(start, c, before, r, project, rows, |rows|)
      modifies this`view
      ensures Valid() && Finished(view, c.id, r)
      ensures view == D.Exec(start, Repeated(D.Peer(c.id, D.SendReplay(r)), |rows| + 1))
      ensures c.closed ==> rows == []
      ensures c.send == before + if c.closed then [] else Fitting(|before|, FramesOf(r, project, rows))
    {
      assert FramesOf(r, project, rows)[..|rows|] == FramesOf(r, project, rows);
      RepeatedSnoc(start, D.Peer(c.id, D.SendReplay(r)), |rows|);
      PeerStep(c.id, D.SendReplay(r));
    }

    /** The machine takes one step of a client; the objects are still to follow. */
    ghost method PeerStep(n: nat, p: D.PeerStep)
      requires Reached(view) && n < |view.clients|
      modifies this`view
      ensures Reached(view) && view == D.Next(old(view), D.Peer(n, p))
      ensures view.hub == old(view).hub && view.store == old(view).store
      ensures view.clients == old(view).clients[n := D.PeerNext(view.store, n in view.hub.registered, old(view).clients[n], p)]
    {
      ReachedNext(view, D.Peer(n, p));
      view := D.Next(view, D.Peer(n, p));
    }
  }
}
