/**
 Reconnecting leaves no gap: events appended before the replay's query come from the replay, events appended after
 it come from the hub, because a client subscribes before it queries and a writer appends before it broadcasts.
 */
module Reconnect {
  import opened Common
  import opened Delivery
  import opened DeliveryProofs
  import opened ReplayProofs

  /** What replay `r` and live delivery together have enqueued so far, once the replay's query is over. */
  ghost predicate Covered(history: seq<Row>, seen: seq<Msg>, c: Client, r: nat)
    requires r < |c.replays|
  {
    var rp := c.replays[r];
    !rp.phase.Querying? && !rp.phase.Failed? ==>
      && (forall k :: rp.ceil <= k < |history| && Msg(history[k].tok, rp.project) in seen ==>
            Live(history[k].tok, rp.project) in c.log)
      && (forall j :: 0 <= j < rp.next && j < |rp.rows| ==> Replayed(r, rp.rows[j].tok) in c.log)
      && (rp.phase.Ended? && |rp.rows| == MAX_REPLAY ==> Resync(r, rp.project) in c.log)
  }

  lemma {:induction false} LogGrows(history: seq<Row>, seen: seq<Msg>, c: Client, d: Client, r: nat)
    requires r < |c.replays| && r < |d.replays| && d.replays[r] == c.replays[r]
    requires Covered(history, seen, c, r) && forall f | f in c.log :: f in d.log
    ensures Covered(history, seen, d, r)
  {
  }

  /** A row appended now has not been broadcast yet. */
  lemma {:induction false} StoreCovered(s: Store, taken: seq<Msg>, seen: seq<Msg>, a: StoreStep, c: Client, r: nat)
    requires StoreInv(s, taken) && (forall m | m in seen :: m in taken) && r < |c.replays|
    requires Covered(s.history, seen, c, r)
    ensures Covered(StoreNext(s, a).history, seen, c, r)
  {
    var t := StoreNext(s, a);
    if t.history != s.history {
      assert a.AppendOk? && t.history == s.history + [t.history[|s.history|]];
      assert forall p :: Msg(a.tok, p) !in seen;
    }
  }

  /** A broadcast offered to the attached client is enqueued. */
  lemma {:induction false} DeliverCovered(history: seq<Row>, seen: seq<Msg>, m: Msg, c: Client, r: nat)
    requires r < |c.replays| && Covered(history, seen, c, r) && c.replays[r].project in c.subs
    requires DeliverTo(c, m).1 && c.closes == 0
    ensures Covered(history, seen + [m], DeliverTo(c, m).0, r)
  {
    var d := DeliverTo(c, m).0;
    LogGrows(history, seen, c, d, r);
    assert m.project == c.replays[r].project ==> Live(m.tok, m.project) in d.log;
  }

  lemma {:induction false} SendCovered(history: seq<Row>, seen: seq<Msg>, c: Client, r: nat, q: nat)
    requires r < |c.replays| && q < |c.replays| && Covered(history, seen, c, r) && c.closes == 0
    requires q == r ==> FindsRoom(c, r)
    requires ReplayOk(history, c.replays[r])
    ensures Covered(history, seen, ReplaySend(c, q), r)
  {
    var d := ReplaySend(c, q);
    assert forall f | f in c.log :: f in d.log;
    if q == r {
      var rp := c.replays[r];
      assert rp.phase.Resyncing? ==> Resync(r, rp.project) in d.log;
      assert rp.phase.Sending? && rp.next < |rp.rows| ==> Replayed(r, rp.rows[rp.next].tok) in d.log;
    } else {
      LogGrows(history, seen, c, d, r);
    }
  }

  lemma {:induction false} PeerCovered(s: Store, seen: seq<Msg>, registered: bool, c: Client, a: PeerStep, r: nat)
    requires r < |c.replays| && Covered(s.history, seen, c, r) && c.closes == 0 && ReplayOk(s.history, c.replays[r])
    requires a == SendReplay(r) ==> FindsRoom(c, r)
    ensures var d := PeerNext(s, registered, c, a);
            r < |d.replays| && d.replays[r].project == c.replays[r].project && Covered(s.history, seen, d, r)
  {
    match a
    case SendReplay(q) =>
      if q < |c.replays| {
        SendCovered(s.history, seen, c, r, q);
      }
    case Query(q, ok) =>
      if q != r {
        LogGrows(s.history, seen, c, PeerNext(s, registered, c, a), r);
      }
    case _ => LogGrows(s.history, seen, c, PeerNext(s, registered, c, a), r);
  }

  lemma {:induction false} HubCovered(s: State, st: Step, c: nat, r: nat, p: string)
    requires Inv(s) && Attached(s, c, p) && Attached(Next(s, st), c, p) && (st.HubTake? || st.HubDeliver?)
    requires r < |s.clients[c].replays| && s.clients[c].replays[r].project == p
    requires Covered(s.store.history, Seen(s.hub, c), s.clients[c], r)
    ensures var t := Next(s, st);
            && r < |t.clients[c].replays| && t.clients[c].replays[r].project == p
            && Covered(t.store.history, Seen(t.hub, c), t.clients[c], r)
  {
    var seen := Seen(s.hub, c);
    if st == HubDeliver(c) && c in s.hub.todo {
      var m := s.hub.taken[|s.hub.taken| - 1];
      DeliverCovered(s.store.history, seen, m, s.clients[c], r);
      assert seen + [m] == s.hub.taken;
    } else {
      assert Seen(Next(s, st).hub, c) == seen;
    }
  }

  lemma {:induction false} NextCovered(s: State, st: Step, c: nat, r: nat, p: string)
    requires AllOk(s) && Attached(s, c, p) && Attached(Next(s, st), c, p) && Roomy(s, st, c, r)
    requires r < |s.clients[c].replays| && s.clients[c].replays[r].project == p
    requires Covered(s.store.history, Seen(s.hub, c), s.clients[c], r)
    ensures var t := Next(s, st);
            && r < |t.clients[c].replays| && t.clients[c].replays[r].project == p
            && Covered(t.store.history, Seen(t.hub, c), t.clients[c], r)
  {
    var d, seen := s.clients[c], Seen(s.hub, c);
    assert ReplayOk(s.store.history, d.replays[r]);
    if st.HubTake? || st.HubDeliver? {
      HubCovered(s, st, c, r, p);
    } else if st.InStore? {
      StoreCovered(s.store, s.hub.taken, seen, st.a, d, r);
    } else if st.Peer? && st.c == c {
      PeerCovered(s.store, seen, true, d, st.p, r);
    } else {
      LogGrows(s.store.history, seen, d, Next(s, st).clients[c], r);
    }
  }

  lemma {:induction false} ExecCovered(s: State, steps: seq<Step>, c: nat, r: nat, p: string)
    requires AllOk(s) && Kept(s, steps, c, p) && AlwaysRoomy(s, steps, c, r)
    requires c < |s.clients| && r < |s.clients[c].replays| && s.clients[c].replays[r].project == p
    requires s.clients[c].replays[r].phase.Querying?
    ensures var t := Exec(s, steps);
            && AllOk(t) && Attached(t, c, p)
            && r < |t.clients[c].replays| && t.clients[c].replays[r].project == p
            && Covered(t.store.history, Seen(t.hub, c), t.clients[c], r)
  {
    if steps != [] {
      var earlier := steps[..|steps| - 1];
      ExecCovered(s, earlier, c, r, p);
      NextCovered(Exec(s, earlier), steps[|steps| - 1], c, r, p);
      NextOk(Exec(s, earlier), steps[|steps| - 1]);
    }
  }

  /** A replay enqueues every row it selected, or asks for a resync. */
  lemma {:induction false} EndedReplayCoversRow(history: seq<Row>, seen: seq<Msg>, c: Client, r: nat, k: nat)
    requires r < |c.replays| && c.replays[r].phase.Ended?
    requires ReplayOk(history, c.replays[r]) && Covered(history, seen, c, r)
    requires var rp := c.replays[r];
             rp.floor <= k < rp.ceil && history[k].project == rp.project && history[k].id > rp.since
    ensures Replayed(r, history[k].tok) in c.log || Resync(r, c.replays[r].project) in c.log
  {
    var rp := c.replays[r];
    var table := history[rp.floor..rp.ceil];
    assert table[k - rp.floor] == history[k];
    MatchingHas(table, rp.project, rp.since, history[k]);
    if |rp.rows| < MAX_REPLAY {
      var j :| 0 <= j < |rp.rows| && rp.rows[j] == history[k];
    }
  }

  /** The writer of `m` is done, and `m` is neither queued nor just being offered to the client. */
  predicate Processed(s: State, c: nat, m: Msg) {
    && m.tok < |s.store.pubs| && s.store.pubs[m.tok].stage.Sent?
    && m !in s.store.queue
    && (c in s.hub.todo && s.hub.taken != [] ==> m != s.hub.taken[|s.hub.taken| - 1])
  }

  /** A processed broadcast has been offered. */
  lemma {:induction false} ProcessedIsSeen(s: State, c: nat, m: Msg)
    requires Inv(s) && Processed(s, c, m) && s.store.pubs[m.tok].project == m.project
    ensures m in Seen(s.hub, c)
  {
    assert m in s.store.sent;
    assert m in s.hub.taken;
    if c in s.hub.todo {
      var n := |s.hub.taken| - 1;
      assert s.hub.taken == s.hub.taken[..n] + [s.hub.taken[n]];
    }
  }

  /**
   Reconnect leaves no gap. Take a client that is registered and subscribed when its replay has not queried yet, and
   that stays so with room for the replay's frames. When the replay has ended, every event of the project with an id
   behind `since` that was not deleted before the query is enqueued, by replay or live, or the client was told to
   resync: at once if the event was in the table at the query, and otherwise once its broadcast is processed.
   */
  lemma {:induction false} ReconnectLeavesNoGap(s: State, steps: seq<Step>, c: nat, r: nat, k: nat)
    requires AllOk(s) && c < |s.clients| && r < |s.clients[c].replays| && s.clients[c].replays[r].phase.Querying?
    requires var p := s.clients[c].replays[r].project;
             Kept(s, steps, c, p) && AlwaysRoomy(s, steps, c, r)
    requires var t := Exec(s, steps);
             && c < |t.clients| && r < |t.clients[c].replays| && t.clients[c].replays[r].phase.Ended?
             && var rp := t.clients[c].replays[r];
                && rp.floor <= k < |t.store.history|
                && t.store.history[k].project == rp.project && t.store.history[k].id > rp.since
                && (k < rp.ceil || Processed(t, c, Msg(t.store.history[k].tok, rp.project)))
    ensures var t := Exec(s, steps);
            var d, tok, p := t.clients[c], t.store.history[k].tok, t.clients[c].replays[r].project;
            Live(tok, p) in d.log || Replayed(r, tok) in d.log || Resync(r, p) in d.log
  {
    var p := s.clients[c].replays[r].project;
    ExecCovered(s, steps, c, r, p);
    var t := Exec(s, steps);
    var d := t.clients[c];
    assert ReplayOk(t.store.history, d.replays[r]);
    if k < d.replays[r].ceil {
      EndedReplayCoversRow(t.store.history, Seen(t.hub, c), d, r, k);
    } else {
      assert t.store.history[k] in t.store.history;
      ProcessedIsSeen(t, c, Msg(t.store.history[k].tok, p));
    }
  }

  /** A subscription made while registered puts its replay into the situation of ReconnectLeavesNoGap. */
  lemma {:induction false} SubscribingStartsTheReplay(s: State, c: nat, p: string, since: int)
    requires AllOk(s) && c in s.hub.registered && s.clients[c].reader == Acking(p, Some(since))
    ensures var t, r := Next(s, Peer(c, SendAck)), |s.clients[c].replays|;
            && AllOk(t) && Attached(t, c, p)
            && r < |t.clients[c].replays| && t.clients[c].replays[r] == Replay(p, since, Querying, [], 0, 0, 0)
  {
    NextOk(s, Peer(c, SendAck));
    assert ClientOk(s.store.history, s.clients[c]);
  }
}
