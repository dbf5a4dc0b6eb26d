/**
 What every run of event delivery keeps: the table stays a suffix of the append history, channels are closed at
 most once and never used by the hub afterwards, live delivery has no gaps and does not depend on the hub's order.
 */
module DeliveryProofs {
  import opened Delivery

  // ---------- the events table ----------

  predicate Ordered(rows: seq<Row>) {
    forall i, j :: 0 <= i < j < |rows| ==> rows[i].id < rows[j].id && rows[i].createdAt <= rows[j].createdAt
  }

  predicate IsSuffix(a: seq<Row>, b: seq<Row>) {
    |a| <= |b| && a == b[|b| - |a|..]
  }

  /** A garbage collection keeps a suffix of the table. */
  lemma {:induction false} RetainIsSuffix(events: seq<Row>, cutoff: int)
    requires Ordered(events)
    ensures IsSuffix(Retain(events, cutoff), events)
  {
    if events != [] {
      var n := |events| - 1;
      if events[n].createdAt < cutoff {
        RetainNothing(events[..n], cutoff);
      } else {
        RetainIsSuffix(events[..n], cutoff);
        var kept := Retain(events[..n], cutoff);
        assert Retain(events, cutoff) == kept + [events[n]];
        assert kept == events[..n][n - |kept|..];
        assert events[n - |kept|..] == events[..n][n - |kept|..] + [events[n]];
      }
    }
  }

  /** It keeps exactly the rows not older than the cutoff. */
  lemma {:induction false} RetainKeeps(events: seq<Row>, cutoff: int, row: Row)
    ensures row in Retain(events, cutoff) <==> row in events && row.createdAt >= cutoff
  {
    if events != [] {
      var n := |events| - 1;
      RetainKeeps(events[..n], cutoff, row);
      assert events == events[..n] + [events[n]];
    }
  }

  lemma {:induction false} RetainNothing(events: seq<Row>, cutoff: int)
    requires forall row | row in events :: row.createdAt < cutoff
    ensures Retain(events, cutoff) == []
  {
    if events != [] {
      RetainNothing(events[..|events| - 1], cutoff);
    }
  }

  ghost predicate MsgsSent(pubs: seq<Pub>, msgs: seq<Msg>) {
    forall m | m in msgs :: m.tok < |pubs| && pubs[m.tok] == Pub(m.project, Sent)
  }

  ghost predicate RowsStored(pubs: seq<Pub>, rows: seq<Row>) {
    forall row | row in rows :: row.tok < |pubs| && pubs[row.tok].project == row.project && !pubs[row.tok].stage.Appending?
  }

  /** Every fanOutEvent call that is done has its broadcast in `msgs`. */
  ghost predicate AllSent(pubs: seq<Pub>, msgs: seq<Msg>) {
    forall t :: 0 <= t < |pubs| && pubs[t].stage.Sent? ==> Msg(t, pubs[t].project) in msgs
  }

  /**
   The table is an ordered suffix of the appends. What went into the broadcast channel is what the hub has taken
   followed by what is still queued, in order, and it is exactly the broadcasts of the calls that are done.
   */
  ghost predicate StoreInv(s: Store, taken: seq<Msg>) {
    && Ordered(s.history) && IsSuffix(s.events, s.history)
    && RowsStored(s.pubs, s.history)
    && s.sent == taken + s.queue
    && MsgsSent(s.pubs, s.sent) && AllSent(s.pubs, s.sent)
  }

  lemma {:induction false} StoreKeepsInv(s: Store, taken: seq<Msg>, a: StoreStep)
    requires StoreInv(s, taken)
    ensures StoreInv(StoreNext(s, a), taken)
  {
    match a
    case Publish(_) =>
    case AppendOk(tok, id, at) => AppendKeepsInv(s, taken, tok, id, at);
    case AppendFailed(tok) =>
      if tok < |s.pubs| && s.pubs[tok].stage.Appending? {
        PubAdvances(s.pubs, tok, s.sent, s.history);
      }
    case Broadcast(tok) => BroadcastKeepsInv(s, taken, tok);
    case Gc(cutoff) => RetainIsSuffix(s.events, cutoff);
  }

  lemma {:induction false} AppendKeepsInv(s: Store, taken: seq<Msg>, tok: nat, id: int, at: int)
    requires StoreInv(s, taken)
    ensures StoreInv(StoreNext(s, AppendOk(tok, id, at)), taken)
  {
    var t := StoreNext(s, AppendOk(tok, id, at));
    if t.history != s.history {
      var row := t.history[|s.history|];
      OrderedSnoc(s.history, row);
      SuffixSnoc(s.events, s.history, row);
      PubAdvances(s.pubs, tok, s.sent, s.history);
    }
  }

  lemma {:induction false} PubAdvances(pubs: seq<Pub>, tok: nat, msgs: seq<Msg>, rows: seq<Row>)
    requires tok < |pubs| && pubs[tok].stage.Appending?
    requires MsgsSent(pubs, msgs) && AllSent(pubs, msgs) && RowsStored(pubs, rows)
    ensures var pubs2 := pubs[tok := pubs[tok].(stage := Broadcasting)];
            MsgsSent(pubs2, msgs) && AllSent(pubs2, msgs) && RowsStored(pubs2, rows)
  {
  }

  lemma {:induction false} BroadcastKeepsInv(s: Store, taken: seq<Msg>, tok: nat)
    requires StoreInv(s, taken)
    ensures StoreInv(StoreNext(s, Broadcast(tok)), taken)
  {
    var t := StoreNext(s, Broadcast(tok));
    if t != s {
      var m := Msg(tok, s.pubs[tok].project);
      assert t.sent == s.sent + [m] && m in t.sent;
      assert t.sent == taken + t.queue;
    }
  }

  lemma {:induction false} OrderedSnoc(rows: seq<Row>, row: Row)
    requires Ordered(rows) && Follows(rows, row.id, row.createdAt)
    ensures Ordered(rows + [row])
  {
  }

  lemma {:induction false} SuffixSnoc(a: seq<Row>, b: seq<Row>, row: Row)
    requires IsSuffix(a, b)
    ensures IsSuffix(a + [row], b + [row])
  {
    assert (b + [row])[|b| - |a|..] == b[|b| - |a|..] + [row];
  }

  // ---------- the hub and its channels ----------

  /** Every client's channel has been closed at most once, and never if the hub still knows or awaits the client. */
  ghost predicate HubInv(hub: Hub, clients: seq<Client>) {
    && (forall c | c in hub.registered :: c < |clients| && clients[c].closes == 0 && c !in hub.register)
    && (forall c | c in hub.register :: c < |clients| && clients[c].closes == 0)
    && (forall i, j :: 0 <= i < j < |hub.register| ==> hub.register[i] != hub.register[j])
    && hub.todo <= hub.registered
    && (hub.todo != {} ==> hub.taken != [])
    && (forall c | 0 <= c < |clients| :: clients[c].closes <= 1 && !clients[c].hubMisuse)
  }

  ghost predicate Inv(s: State) {
    StoreInv(s.store, s.hub.taken) && HubInv(s.hub, s.clients)
  }

  /** A client's own steps add at most one frame, no live one, and leave its channel's state to the hub. */
  ghost predicate PeerStepped(c: Client, d: Client) {
    && d.closes == c.closes
    && (d.log == c.log || (|d.log| == |c.log| + 1 && c.log == d.log[..|c.log|] && !d.log[|c.log|].Live?))
  }

  lemma {:induction false} PeerFrame(s: Store, registered: bool, c: Client, a: PeerStep)
    ensures var d := PeerNext(s, registered, c, a);
            PeerStepped(c, d) && ((registered && c.closes > 0) || d.hubMisuse == c.hubMisuse)
  {
  }

  lemma {:induction false} RegisterKeepsInv(s: State)
    requires Inv(s)
    ensures Inv(Next(s, HubRegister))
  {
    if s.hub.todo == {} && s.hub.register != [] {
      var waiting, rest := s.hub.register, s.hub.register[1..];
      assert waiting == [waiting[0]] + rest;
      assert forall c | c in rest :: c in waiting && c != waiting[0];
    }
  }

  lemma {:induction false} UnregisterKeepsInv(s: State)
    requires Inv(s)
    ensures Inv(Next(s, HubUnregister))
  {
  }

  lemma {:induction false} TakeKeepsInv(s: State)
    requires Inv(s)
    ensures Inv(Next(s, HubTake))
  {
    if s.hub.todo == {} && s.store.queue != [] {
      assert s.store.queue == [s.store.queue[0]] + s.store.queue[1..];
      assert s.hub.taken + s.store.queue == (s.hub.taken + [s.store.queue[0]]) + s.store.queue[1..];
    }
  }

  lemma {:induction false} DeliverKeepsInv(s: State, c: nat)
    requires Inv(s)
    ensures Inv(Next(s, HubDeliver(c)))
  {
    if c in s.hub.todo {
      var (d, stays) := DeliverTo(s.clients[c], s.hub.taken[|s.hub.taken| - 1]);
      assert !d.hubMisuse && (stays ==> d.closes == 0) && (!stays ==> d.closes == 1);
    }
  }

  lemma {:induction false} ConnectKeepsInv(s: State, user: string)
    requires Inv(s)
    ensures Inv(Next(s, Connect(user)))
  {
    var t := Next(s, Connect(user));
    if t != s {
      assert t.hub.register == s.hub.register + [|s.clients|];
      assert forall c | c in t.hub.register :: c in s.hub.register || c == |s.clients|;
      assert forall i :: 0 <= i < |s.hub.register| ==> s.hub.register[i] in s.hub.register;
    }
  }

  lemma {:induction false} NextKeepsInv(s: State, st: Step)
    requires Inv(s)
    ensures Inv(Next(s, st))
  {
    match st
    case InStore(a) => StoreKeepsInv(s.store, s.hub.taken, a);
    case Connect(user) => ConnectKeepsInv(s, user);
    case Disconnect(_) =>
    case Peer(c, a) =>
      if c < |s.clients| {
        PeerFrame(s.store, c in s.hub.registered, s.clients[c], a);
      }
    case HubRegister => RegisterKeepsInv(s);
    case HubUnregister => UnregisterKeepsInv(s);
    case HubTake => TakeKeepsInv(s);
    case HubDeliver(c) => DeliverKeepsInv(s, c);
  }

  lemma {:induction false} ExecKeepsInv(s: State, steps: seq<Step>)
    requires Inv(s)
    ensures Inv(Exec(s, steps))
  {
    if steps != [] {
      ExecKeepsInv(s, steps[..|steps| - 1]);
      NextKeepsInv(Exec(s, steps[..|steps| - 1]), steps[|steps| - 1]);
    }
  }

  lemma {:induction false} StartKeepsInv()
    ensures Inv(Start())
  {
  }

  /** Every run from the start keeps the invariant. */
  lemma {:induction false} RunKeepsInv(steps: seq<Step>)
    ensures Inv(Exec(Start(), steps))
  {
    StartKeepsInv();
    ExecKeepsInv(Start(), steps);
  }

  /**
   Channel lifecycle, in every run: each channel is closed at most once, registered clients have open channels, and
   the hub never sends on or closes a closed channel.
   */
  lemma {:induction false} ChannelLifecycle(steps: seq<Step>)
    ensures var s := Exec(Start(), steps);
            && (forall c | 0 <= c < |s.clients| :: s.clients[c].closes <= 1 && !s.clients[c].hubMisuse)
            && (forall c | c in s.hub.registered :: c < |s.clients| && s.clients[c].closes == 0)
  {
    RunKeepsInv(steps);
  }

  /** After any run the table is a suffix of everything ever appended, with ids ascending. */
  lemma {:induction false} TableIsSuffixOfHistory(steps: seq<Step>)
    ensures var s := Exec(Start(), steps).store;
            IsSuffix(s.events, s.history) && Ordered(s.history)
  {
    RunKeepsInv(steps);
  }

  // ---------- live delivery ----------

  /** Tokens of the live frames of one project, in order. */
  function LiveOn(log: seq<Frame>, p: string): seq<nat> {
    if log == [] then []
    else
      var f := log[|log| - 1];
      LiveOn(log[..|log| - 1], p) + if f.Live? && f.project == p then [f.tok] else []
  }

  /** Tokens of the broadcasts of one project, in order. */
  function OnProject(msgs: seq<Msg>, p: string): seq<nat> {
    if msgs == [] then []
    else
      var m := msgs[|msgs| - 1];
      OnProject(msgs[..|msgs| - 1], p) + if m.project == p then [m.tok] else []
  }

  lemma {:induction false} LiveSnoc(log: seq<Frame>, f: Frame, p: string)
    ensures LiveOn(log + [f], p) == LiveOn(log, p) + if f.Live? && f.project == p then [f.tok] else []
  {
    assert (log + [f])[..|log|] == log;
  }

  lemma {:induction false} OnProjectSnoc(msgs: seq<Msg>, m: Msg, p: string)
    ensures OnProject(msgs + [m], p) == OnProject(msgs, p) + if m.project == p then [m.tok] else []
  {
    assert (msgs + [m])[..|msgs|] == msgs;
  }

  predicate Attached(s: State, c: nat, p: string) {
    c < |s.clients| && c in s.hub.registered && p in s.clients[c].subs
  }

  /** The client stays registered and subscribed at every point of the run. */
  predicate Kept(s: State, steps: seq<Step>, c: nat, p: string) {
    Attached(Exec(s, steps), c, p) && (steps != [] ==> Kept(s, steps[..|steps| - 1], c, p))
  }

  lemma {:induction false} PeerAddsNoLive(c: Client, d: Client, p: string)
    requires PeerStepped(c, d)
    ensures LiveOn(d.log, p) == LiveOn(c.log, p)
  {
  }

  /** Either nothing happened to the client's live frames, or exactly one more broadcast was offered to it. */
  ghost predicate LiveAdvance(seen: seq<Msg>, c: Client, seen2: seq<Msg>, d: Client, p: string) {
    || (seen2 == seen && LiveOn(d.log, p) == LiveOn(c.log, p))
    || (|seen2| == |seen| + 1 && seen2[..|seen|] == seen
        && LiveOn(d.log, p) == LiveOn(c.log, p) + OnProject([seen2[|seen|]], p))
  }

  /** Offering `m` to a client that stays enqueues it exactly if it is on the project. */
  lemma {:induction false} OfferAdvances(c: Client, m: Msg, p: string)
    requires c.closes == 0 && p in c.subs && DeliverTo(c, m).1
    ensures LiveOn(DeliverTo(c, m).0.log, p) == LiveOn(c.log, p) + OnProject([m], p)
  {
    assert OnProject([m], p) == if m.project == p then [m.tok] else [] by {
      OnProjectSnoc([], m, p);
      assert [] + [m] == [m];
    }
    if m.project in c.subs {
      assert DeliverTo(c, m).0.log == c.log + [Live(m.tok, m.project)];
      LiveSnoc(c.log, Live(m.tok, m.project), p);
    } else {
      assert m.project != p;
      assert DeliverTo(c, m).0.log == c.log;
    }
  }

  lemma {:induction false} DeliverAdvances(s: State, c: nat, p: string)
    requires Inv(s) && Attached(s, c, p) && Attached(Next(s, HubDeliver(c)), c, p)
    ensures var t := Next(s, HubDeliver(c));
            LiveAdvance(Seen(s.hub, c), s.clients[c], Seen(t.hub, c), t.clients[c], p)
  {
    if c in s.hub.todo {
      var n := |s.hub.taken| - 1;
      OfferAdvances(s.clients[c], s.hub.taken[n], p);
      var t := Next(s, HubDeliver(c));
      assert Seen(s.hub, c) == s.hub.taken[..n] && Seen(t.hub, c) == s.hub.taken;
      assert t.clients[c] == DeliverTo(s.clients[c], s.hub.taken[n]).0;
    }
  }

  lemma {:induction false} NextAdvances(s: State, st: Step, c: nat, p: string)
    requires Inv(s) && Attached(s, c, p) && Attached(Next(s, st), c, p)
    ensures var t := Next(s, st);
            LiveAdvance(Seen(s.hub, c), s.clients[c], Seen(t.hub, c), t.clients[c], p)
  {
    if st == HubDeliver(c) {
      DeliverAdvances(s, c, p);
    } else if st.Peer? && st.c == c {
      PeerFrame(s.store, c in s.hub.registered, s.clients[c], st.p);
      PeerAddsNoLive(s.clients[c], PeerNext(s.store, c in s.hub.registered, s.clients[c], st.p), p);
    }
  }

  /** The live frames gained since `before` are the broadcasts seen since. */
  ghost predicate Delivered(before: seq<Msg>, c: Client, seen: seq<Msg>, d: Client, p: string) {
    before <= seen && LiveOn(d.log, p) == LiveOn(c.log, p) + OnProject(seen[|before|..], p)
  }

  lemma {:induction false} Telescope(
    before: seq<Msg>, b: Client, mid: seq<Msg>, m: Client, after: seq<Msg>, a: Client, p: string)
    requires Delivered(before, b, mid, m, p) && LiveAdvance(mid, m, after, a, p)
    ensures Delivered(before, b, after, a, p)
  {
    if after != mid {
      var x := after[|mid|];
      assert after == mid + [x];
      assert after[|before|..] == mid[|before|..] + [x];
      OnProjectSnoc(mid[|before|..], x, p);
      OnProjectSnoc([], x, p);
      assert [] + [x] == [x];
    }
  }

  /** The broadcasts offered to a client are the oldest ones sent: all but those queued and the one being visited. */
  lemma {:induction false} SeenIsSent(s: State, c: nat)
    requires Inv(s)
    ensures var seen, sent := Seen(s.hub, c), s.store.sent;
            && seen <= sent
            && |seen| + (if c in s.hub.todo then 1 else 0) + |s.store.queue| == |sent|
  {
  }

  /** Induction for LiveDeliveryIsGapFree. */
  lemma {:induction false} LiveDeliveryFollowsOffers(s: State, steps: seq<Step>, c: nat, p: string)
    requires Inv(s) && Kept(s, steps, c, p)
    ensures var t := Exec(s, steps);
            && Attached(s, c, p) && Attached(t, c, p)
            && Delivered(Seen(s.hub, c), s.clients[c], Seen(t.hub, c), t.clients[c], p)
  {
    if steps != [] {
      var earlier := steps[..|steps| - 1];
      LiveDeliveryFollowsOffers(s, earlier, c, p);
      ExecKeepsInv(s, earlier);
      var m := Exec(s, earlier);
      var t := Next(m, steps[|steps| - 1]);
      NextAdvances(m, steps[|steps| - 1], c, p);
      Telescope(Seen(s.hub, c), s.clients[c], Seen(m.hub, c), m.clients[c], Seen(t.hub, c), t.clients[c], p);
    }
  }

  /** How many of the broadcasts sent have been offered to the client: all that are neither queued nor being offered. */
  function OfferedCount(s: State, c: nat): int {
    |s.store.sent| - |s.store.queue| - if c in s.hub.todo then 1 else 0
  }

  /**
   Live delivery has no gap: over any run during which the client stays registered and subscribed, the live frames
   enqueued for the project are exactly the project's broadcasts between the first and the last one offered, in the
   order in which writers sent them.
   */
  lemma {:induction false} LiveDeliveryIsGapFree(s: State, steps: seq<Step>, c: nat, p: string)
    requires Inv(s) && Kept(s, steps, c, p)
    ensures var t := Exec(s, steps);
            && Attached(s, c, p) && Attached(t, c, p)
            && 0 <= OfferedCount(s, c) <= OfferedCount(t, c) <= |t.store.sent|
            && LiveOn(t.clients[c].log, p)
               == LiveOn(s.clients[c].log, p) + OnProject(t.store.sent[OfferedCount(s, c)..OfferedCount(t, c)], p)
  {
    LiveDeliveryFollowsOffers(s, steps, c, p);
    ExecKeepsInv(s, steps);
    var t := Exec(s, steps);
    SeenIsSent(s, c);
    SeenIsSent(t, c);
    var from, to := OfferedCount(s, c), OfferedCount(t, c);
    assert Seen(t.hub, c)[from..] == t.store.sent[from..to];
  }

  /** A broadcast refused by a full buffer removes the client and closes its channel, without enqueuing anything. */
  lemma {:induction false} RefusalRemoves(s: State, c: nat)
    requires Inv(s) && c in s.hub.todo && c < |s.clients|
    requires s.hub.taken[|s.hub.taken| - 1].project in s.clients[c].subs && !s.clients[c].HasRoom()
    ensures var t := Next(s, HubDeliver(c));
            c !in t.hub.registered && t.clients[c] == s.clients[c].(closes := 1)
  {
  }

  /** Frames that only the hub's code enqueues. */
  function HubFrames(log: seq<Frame>): seq<Frame> {
    if log == [] then []
    else
      var f := log[|log| - 1];
      HubFrames(log[..|log| - 1]) + if f.Live? || f.Revoked? then [f] else []
  }

  /** Once removed, a client is never registered again and the hub never enqueues to it again, in any run. */
  lemma {:induction false} RemovedForGood(s: State, steps: seq<Step>, c: nat)
    requires Inv(s) && c < |s.clients| && s.clients[c].closes == 1
    ensures var t := Exec(s, steps);
            && c < |t.clients| && t.clients[c].closes == 1 && c !in t.hub.registered
            && HubFrames(t.clients[c].log) == HubFrames(s.clients[c].log)
  {
    if steps != [] {
      var earlier := steps[..|steps| - 1];
      RemovedForGood(s, earlier, c);
      ExecKeepsInv(s, earlier);
      RemovedStep(Exec(s, earlier), steps[|steps| - 1], c);
    }
  }

  lemma {:induction false} RemovedStep(s: State, st: Step, c: nat)
    requires Inv(s) && c < |s.clients| && s.clients[c].closes == 1
    ensures var t := Next(s, st);
            && c < |t.clients| && t.clients[c].closes == 1 && c !in t.hub.registered
            && HubFrames(t.clients[c].log) == HubFrames(s.clients[c].log)
  {
    assert c !in s.hub.registered && c !in s.hub.register;
    if st.Peer? && st.c == c {
      ClosedPeer(s.store, s.clients[c], st.p);
    }
  }

  lemma {:induction false} ClosedPeer(s: Store, c: Client, a: PeerStep)
    requires c.closes == 1
    ensures var d := PeerNext(s, false, c, a);
            d.closes == 1 && HubFrames(d.log) == HubFrames(c.log)
  {
  }

  /** The order in which the hub visits clients does not matter: offers to different clients commute. */
  lemma {:induction false} DeliveriesCommute(s: State, a: nat, b: nat)
    requires Inv(s) && a in s.hub.todo && b in s.hub.todo && a != b
    ensures Next(Next(s, HubDeliver(a)), HubDeliver(b)) == Next(Next(s, HubDeliver(b)), HubDeliver(a))
  {
    var ab, ba := Next(Next(s, HubDeliver(a)), HubDeliver(b)), Next(Next(s, HubDeliver(b)), HubDeliver(a));
    assert ab.clients == ba.clients;
    assert ab.hub.todo == ba.hub.todo && ab.hub.registered == ba.hub.registered;
  }

  /** The state in which the broadcast taken last has been offered to exactly the clients in `done`. */
  function Offering(s: State, m: Msg, done: set<nat>): State {
    s.(clients := seq(|s.clients|, n requires 0 <= n < |s.clients| =>
                        if n in done then DeliverTo(s.clients[n], m).0 else s.clients[n]),
       hub := s.hub.(todo := s.hub.registered - done,
                     registered := set n | n in s.hub.registered &&
                                           !(n in done && n < |s.clients| && !DeliverTo(s.clients[n], m).1)))
  }

  /** The outcome of a fan-out, without any order of visits. */
  function FanOut(s: State): State
    requires s.store.queue != []
  {
    Offering(Next(s, HubTake), s.store.queue[0], s.hub.registered)
  }

  predicate NoRepeats(order: seq<nat>) {
    forall i, j :: 0 <= i < j < |order| ==> order[i] != order[j]
  }

  function Deliveries(order: seq<nat>): seq<Step> {
    seq(|order|, i requires 0 <= i < |order| => HubDeliver(order[i]))
  }

  lemma {:induction false} OfferingStep(s: State, m: Msg, done: set<nat>, n: nat)
    requires n in s.hub.registered && n !in done && n < |s.clients|
    requires s.hub.taken != [] && s.hub.taken[|s.hub.taken| - 1] == m
    ensures Next(Offering(s, m, done), HubDeliver(n)) == Offering(s, m, done + {n})
  {
    var t, u := Next(Offering(s, m, done), HubDeliver(n)), Offering(s, m, done + {n});
    assert t.clients == u.clients;
    assert t.hub.todo == u.hub.todo;
    assert t.hub.registered == u.hub.registered;
  }

  lemma {:induction false} OfferingNobody(s: State, m: Msg)
    requires s.hub.todo == s.hub.registered
    ensures Offering(s, m, {}) == s
  {
    var t := Offering(s, m, {});
    assert t.clients == s.clients;
    assert t.hub.registered == s.hub.registered;
    assert t.hub.todo == s.hub.todo;
  }

  function Visited(order: seq<nat>): set<nat> {
    set n | n in order
  }

  lemma {:induction false} VisitedSnoc(order: seq<nat>)
    requires order != [] && NoRepeats(order)
    ensures var k := |order| - 1;
            Visited(order) == Visited(order[..k]) + {order[k]} && order[k] !in Visited(order[..k]) && NoRepeats(order[..k])
  {
    var k := |order| - 1;
    assert order == order[..k] + [order[k]];
  }

  lemma {:induction false} DeliveriesOffer(s: State, m: Msg, order: seq<nat>)
    requires s.hub.taken != [] && s.hub.taken[|s.hub.taken| - 1] == m && s.hub.todo == s.hub.registered
    requires NoRepeats(order) && forall n | n in Visited(order) :: n in s.hub.registered && n < |s.clients|
    ensures Exec(s, Deliveries(order)) == Offering(s, m, Visited(order))
  {
    if order == [] {
      OfferingNobody(s, m);
    } else {
      var k := |order| - 1;
      VisitedSnoc(order);
      DeliveriesOffer(s, m, order[..k]);
      assert Deliveries(order)[..k] == Deliveries(order[..k]);
      OfferingStep(s, m, Visited(order[..k]), order[k]);
    }
  }

  /** Whatever order the hub ranges over its clients in, a broadcast has the same outcome. */
  lemma {:induction false} FanOutIgnoresOrder(s: State, order: seq<nat>)
    requires Inv(s) && s.hub.todo == {} && s.store.queue != []
    requires NoRepeats(order) && Visited(order) == s.hub.registered
    ensures Exec(Next(s, HubTake), Deliveries(order)) == FanOut(s)
  {
    DeliveriesOffer(Next(s, HubTake), s.store.queue[0], order);
  }
}
