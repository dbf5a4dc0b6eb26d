/**
 Event delivery as interleaved steps: writers append an event and then broadcast it, the hub fans broadcasts out
 client by client, clients subscribe and start replays, and old events are garbage-collected.
 */
module Delivery {
  import opened Common

  const SEND_BUFFER: nat := 256
  const BROADCAST_BUFFER: nat := 256
  const REGISTER_BUFFER: nat := 64
  const MAX_REPLAY: nat := 500

  // ---------- writers and the events table ----------

  /** A broadcast in flight; `tok` identifies the fanOutEvent call it comes from. */
  datatype Msg = Msg(tok: nat, project: string)

  datatype Row = Row(id: int, tok: nat, project: string, createdAt: int)

  /** One fanOutEvent call: about to append, about to broadcast, done. */
  datatype PubStage = Appending | Broadcasting | Sent

  datatype Pub = Pub(project: string, stage: PubStage)

  /**
   `events` is the table and `queue` the hub's broadcast channel; `history` has every row ever inserted and `sent`
   every broadcast ever put into the channel.
   */
  datatype Store = Store(pubs: seq<Pub>, history: seq<Row>, events: seq<Row>, queue: seq<Msg>, sent: seq<Msg>)

  datatype StoreStep =
    | Publish(project: string)
    | AppendOk(tok: nat, id: int, at: int)
    | AppendFailed(tok: nat)
    | Broadcast(tok: nat)
    | Gc(cutoff: int)

  /** Rows with `created_at` before the cutoff are deleted. */
  function Retain(events: seq<Row>, cutoff: int): seq<Row> {
    if events == [] then []
    else
      var last := events[|events| - 1];
      Retain(events[..|events| - 1], cutoff) + if last.createdAt < cutoff then [] else [last]
  }

  /** Ids come from a sequence and timestamps from one clock: ids grow strictly, timestamps never go back. */
  predicate Follows(history: seq<Row>, id: int, at: int) {
    history == [] || (history[|history| - 1].id < id && history[|history| - 1].createdAt <= at)
  }

  /** An impossible step changes nothing; a broadcast waits while the channel is full. */
  function StoreNext(s: Store, a: StoreStep): Store {
    match a
    case Publish(project) => s.(pubs := s.pubs + [Pub(project, Appending)])
    case AppendOk(tok, id, at) =>
      if tok < |s.pubs| && s.pubs[tok].stage.Appending? && Follows(s.history, id, at) then
        var row := Row(id, tok, s.pubs[tok].project, at);
        s.(pubs := s.pubs[tok := s.pubs[tok].(stage := Broadcasting)],
           history := s.history + [row], events := s.events + [row])
      else s
    case AppendFailed(tok) =>
      if tok < |s.pubs| && s.pubs[tok].stage.Appending? then
        s.(pubs := s.pubs[tok := s.pubs[tok].(stage := Broadcasting)])
      else s
    case Broadcast(tok) =>
      if tok < |s.pubs| && s.pubs[tok].stage.Broadcasting? && |s.queue| < BROADCAST_BUFFER then
        var m := Msg(tok, s.pubs[tok].project);
        s.(pubs := s.pubs[tok := s.pubs[tok].(stage := Sent)], queue := s.queue + [m], sent := s.sent + [m])
      else s
    case Gc(cutoff) => s.(events := Retain(s.events, cutoff))
  }

  // ---------- clients ----------

  /** What reaches a client's send channel, with its origin; `Live` and `Replayed` frames carry the same payload. */
  datatype Frame =
    | Live(tok: nat, project: string)
    | Replayed(replay: nat, tok: nat)
    | Resync(replay: nat, project: string)
    | Ack(project: string)
    | Revoked(project: string)

  datatype Phase = Querying | Resyncing | Sending | Ended | Failed

  /** A replay goroutine; `floor` and `ceil` record which part of the history the table held at its query. */
  datatype Replay = Replay(project: string, since: int, phase: Phase, rows: seq<Row>, next: nat, floor: nat, ceil: nat)

  datatype Reader = Idle | Acking(project: string, since: Option<int>) | Gone

  /**
   `log` is everything ever enqueued on `send`, of which the first `drained` frames have been written out.
   `hubMisuse` is set when the hub sends on or closes an already closed channel, `crash` when another
   goroutine sends on one.
   */
  datatype Client = Client(
    user: string, subs: set<string>, log: seq<Frame>, drained: nat, closes: nat,
    reader: Reader, replays: seq<Replay>, hubMisuse: bool, crash: bool)
  {
    predicate HasRoom() {
      |log| < drained + SEND_BUFFER
    }

    /** A select with a default branch: enqueue if there is room, else drop. */
    function Offer(f: Frame): Client {
      if HasRoom() then this.(log := log + [f]) else this
    }
  }

  function NewClient(user: string): Client {
    Client(user, {}, [], 0, 0, Idle, [], false, false)
  }

  datatype PeerStep =
    | Subscribe(project: string, since: Option<int>)
    | SendAck
    | Unsubscribe(project: string)
    | Query(r: nat, ok: bool)
    | SendReplay(r: nat)
    | Drain
    | Revoke(project: string, user: string)

  /** The rows of a project behind an id, oldest first. */
  function Matching(events: seq<Row>, project: string, since: int): seq<Row> {
    if events == [] then []
    else
      var last := events[|events| - 1];
      Matching(events[..|events| - 1], project, since) + if last.project == project && last.id > since then [last] else []
  }

  /** ... of which the query returns at most MAX_REPLAY. */
  function Select(events: seq<Row>, project: string, since: int): seq<Row> {
    var m := Matching(events, project, since);
    if |m| <= MAX_REPLAY then m else m[..MAX_REPLAY]
  }

  function ReplayQuery(s: Store, rp: Replay, ok: bool): Replay {
    if !ok then rp.(phase := Failed)
    else
      var rows := Select(s.events, rp.project, rp.since);
      rp.(phase := if |rows| == MAX_REPLAY then Resyncing else Sending, rows := rows, next := 0,
          floor := if |s.events| <= |s.history| then |s.history| - |s.events| else 0, ceil := |s.history|)
  }

  /** The replay goroutine is about to send a frame. */
  predicate AboutToSend(rp: Replay) {
    rp.phase.Resyncing? || (rp.phase.Sending? && rp.next < |rp.rows|)
  }

  /** One pass through a replay's final select, or the end of its loop. */
  function ReplaySend(c: Client, r: nat): Client
    requires r < |c.replays|
  {
    var rp := c.replays[r];
    if !AboutToSend(rp) then
      if rp.phase.Sending? then c.(replays := c.replays[r := rp.(phase := Ended)]) else c
    else if c.closes > 0 then
      c.(crash := true)
    else if rp.phase.Resyncing? then
      c.Offer(Resync(r, rp.project)).(replays := c.replays[r := rp.(phase := Ended)])
    else
      c.Offer(Replayed(r, rp.rows[rp.next].tok)).(replays := c.replays[r := rp.(next := rp.next + 1)])
  }

  function PeerNext(s: Store, registered: bool, c: Client, a: PeerStep): Client {
    match a
    case Subscribe(project, since) =>
      if c.reader.Idle? then c.(subs := c.subs + {project}, reader := Acking(project, since)) else c
    case SendAck =>
      if !c.reader.Acking? then c
      else if c.closes > 0 then c.(crash := true, reader := Gone)
      else
        var d := c.Offer(Ack(c.reader.project)).(reader := Idle);
        (match c.reader.since
         case None => d
         case Some(since) =>
           d.(replays := d.replays + [Replay(c.reader.project, since, Querying, [], 0, 0, 0)]))
    case Unsubscribe(project) =>
      if c.reader.Idle? then c.(subs := c.subs - {project}) else c
    case Query(r, ok) =>
      if r < |c.replays| && c.replays[r].phase.Querying? then
        c.(replays := c.replays[r := ReplayQuery(s, c.replays[r], ok)])
      else c
    case SendReplay(r) =>
      if r < |c.replays| then ReplaySend(c, r) else c
    case Drain =>
      if c.drained < |c.log| then c.(drained := c.drained + 1) else c
    case Revoke(project, user) =>
      if registered && project in c.subs && c.user == user then
        if c.closes > 0 then c.(hubMisuse := true) else c.Offer(Revoked(project))
      else c
  }

  // ---------- the hub ----------

  /** `taken` is every broadcast received so far; `todo` the clients that the latest one has still to be offered to. */
  datatype Hub = Hub(
    registered: set<nat>, register: seq<nat>, unregister: seq<nat>, taken: seq<Msg>, todo: set<nat>)

  datatype State = State(store: Store, hub: Hub, clients: seq<Client>)

  datatype Step =
    | InStore(a: StoreStep)
    | Connect(user: string)
    | Disconnect(c: nat)
    | HubRegister
    | HubUnregister
    | HubTake
    | HubDeliver(c: nat)
    | Peer(c: nat, p: PeerStep)

  /** Removing a client from the map closes its channel. */
  function Close(c: Client): Client {
    if c.closes > 0 then c.(hubMisuse := true) else c.(closes := c.closes + 1)
  }

  /** Offering the broadcast `m` to one client: what the client and its membership become. */
  function DeliverTo(c: Client, m: Msg): (Client, bool) {
    if m.project !in c.subs then (c, true)
    else if c.closes > 0 then (c.(hubMisuse := true), true)
    else if c.HasRoom() then (c.Offer(Live(m.tok, m.project)), true)
    else (Close(c), false)
  }

  function Next(s: State, st: Step): State {
    var hub := s.hub;
    match st
    case InStore(a) => s.(store := StoreNext(s.store, a))
    case Connect(user) =>
      if |hub.register| < REGISTER_BUFFER then
        s.(clients := s.clients + [NewClient(user)], hub := hub.(register := hub.register + [|s.clients|]))
      else s
    case Disconnect(c) =>
      if c < |s.clients| && s.clients[c].reader.Idle? && |hub.unregister| < REGISTER_BUFFER then
        s.(clients := s.clients[c := s.clients[c].(reader := Gone)], hub := hub.(unregister := hub.unregister + [c]))
      else s
    case HubRegister =>
      if hub.todo == {} && hub.register != [] then
        s.(hub := hub.(registered := hub.registered + {hub.register[0]}, register := hub.register[1..]))
      else s
    case HubUnregister =>
      if hub.todo == {} && hub.unregister != [] then
        var c := hub.unregister[0];
        var rest := hub.(unregister := hub.unregister[1..]);
        if c in hub.registered && c < |s.clients| then
          s.(hub := rest.(registered := hub.registered - {c}), clients := s.clients[c := Close(s.clients[c])])
        else s.(hub := rest)
      else s
    case HubTake =>
      if hub.todo == {} && s.store.queue != [] then
        s.(store := s.store.(queue := s.store.queue[1..]),
           hub := hub.(taken := hub.taken + [s.store.queue[0]], todo := hub.registered))
      else s
    case HubDeliver(c) =>
      if c in hub.todo && c < |s.clients| && hub.taken != [] then
        var (d, stays) := DeliverTo(s.clients[c], hub.taken[|hub.taken| - 1]);
        s.(clients := s.clients[c := d],
           hub := hub.(todo := hub.todo - {c}, registered := if stays then hub.registered else hub.registered - {c}))
      else s
    case Peer(c, p) =>
      if c < |s.clients| then
        s.(clients := s.clients[c := PeerNext(s.store, c in hub.registered, s.clients[c], p)])
      else s
  }

  function Exec(s: State, steps: seq<Step>): State {
    if steps == [] then s else Next(Exec(s, steps[..|steps| - 1]), steps[|steps| - 1])
  }

  function Start(): State {
    State(Store([], [], [], [], []), Hub({}, [], [], [], {}), [])
  }

  /** The broadcasts the hub has finished offering to client `c`. */
  function Seen(hub: Hub, c: nat): seq<Msg> {
    if c in hub.todo && hub.taken != [] then hub.taken[..|hub.taken| - 1] else hub.taken
  }
}
