/**
 The sizes that matter, as numbers: channels hold at most 256, 256 and 64 entries in every run, a sender waits or is
 refused exactly when they are full, and a replay asks for a resync exactly from 500 events on.
 */
module Limits {
  import opened Delivery
  import opened DeliveryProofs
  import opened ReplayProofs

  ghost predicate Bounded(s: State) {
    && |s.store.queue| <= 256 && |s.hub.register| <= 64 && |s.hub.unregister| <= 64
    && forall c :: 0 <= c < |s.clients| ==> |s.clients[c].log| - s.clients[c].drained <= 256
  }

  lemma {:induction false} PeerBounded(s: Store, registered: bool, c: Client, a: PeerStep)
    requires |c.log| - c.drained <= 256
    ensures var d := PeerNext(s, registered, c, a); |d.log| - d.drained <= 256
  {
  }

  lemma {:induction false} NextBounded(s: State, st: Step)
    requires Bounded(s)
    ensures Bounded(Next(s, st))
  {
    if st.Peer? && st.c < |s.clients| {
      PeerBounded(s.store, st.c in s.hub.registered, s.clients[st.c], st.p);
    }
  }

  /** No channel ever holds more than it was made for. */
  lemma {:induction false} ChannelsStayBounded(steps: seq<Step>)
    ensures Bounded(Exec(Start(), steps))
  {
    if steps != [] {
      ChannelsStayBounded(steps[..|steps| - 1]);
      NextBounded(Exec(Start(), steps[..|steps| - 1]), steps[|steps| - 1]);
    }
  }

  /** A broadcast waits exactly while 256 are queued, and then joins the end. */
  lemma {:induction false} BroadcastWaitsIff(s: State, tok: nat)
    requires tok < |s.store.pubs| && s.store.pubs[tok].stage == Broadcasting
    ensures var t := Next(s, InStore(Broadcast(tok)));
            if |s.store.queue| < 256 then t.store.queue == s.store.queue + [Msg(tok, s.store.pubs[tok].project)] else t == s
  {
  }

  /** A connection and a disconnection wait exactly while 64 are queued. */
  lemma {:induction false} ConnectionsWaitIff(s: State, user: string, c: nat)
    requires c < |s.clients| && s.clients[c].reader == Idle
    ensures if |s.hub.register| < 64 then Next(s, Connect(user)).hub.register == s.hub.register + [|s.clients|]
            else Next(s, Connect(user)) == s
    ensures if |s.hub.unregister| < 64 then Next(s, Disconnect(c)).hub.unregister == s.hub.unregister + [c]
            else Next(s, Disconnect(c)) == s
  {
  }

  /** A subscribed client is sent the broadcast exactly if fewer than 256 frames wait for it, and removed otherwise. */
  lemma {:induction false} OfferIff(s: State, c: nat)
    requires Inv(s) && c in s.hub.todo && s.hub.taken[|s.hub.taken| - 1].project in s.clients[c].subs
    ensures var (t, m, d) := (Next(s, HubDeliver(c)), s.hub.taken[|s.hub.taken| - 1], s.clients[c]);
            if |d.log| - d.drained < 256 then
              t.clients[c].log == d.log + [Live(m.tok, m.project)] && t.clients[c].closes == 0 && c in t.hub.registered
            else t.clients[c].log == d.log && t.clients[c].closes == 1 && c !in t.hub.registered
  {
  }

  /** A query that goes through leads to a resync exactly if 500 or more events match, and else to all of them in order. */
  lemma {:induction false} ResyncIff(s: Store, rp: Replay)
    requires Ordered(s.events) && rp.phase == Querying
    ensures var (rq, m) := (ReplayQuery(s, rp, true), Matching(s.events, rp.project, rp.since));
            if |m| >= 500 then rq.phase == Resyncing else rq.phase == Sending && rq.rows == m && rq.next == 0
    ensures forall row :: row in Matching(s.events, rp.project, rp.since) <==>
              row in s.events && row.project == rp.project && row.id > rp.since
    ensures Ordered(Matching(s.events, rp.project, rp.since))
  {
    MatchingIsOrdered(s.events, rp.project, rp.since);
    forall row
      ensures row in Matching(s.events, rp.project, rp.since) <==>
                row in s.events && row.project == rp.project && row.id > rp.since
    {
      MatchingHas(s.events, rp.project, rp.since, row);
    }
  }

  /** The frame is the replay's, a row or its resync. */
  predicate Own(f: Frame, r: nat) {
    (f.Replayed? && f.replay == r) || (f.Resync? && f.replay == r)
  }

  /** The replay's query has failed, and from position `n` on nothing in the log is its. */
  ghost predicate Silent(c: Client, r: nat, n: nat) {
    && r < |c.replays| && c.replays[r].phase == Failed && n <= |c.log|
    && forall j :: n <= j < |c.log| ==> !Own(c.log[j], r)
  }

  lemma {:induction false} SilentSend(c: Client, q: nat, r: nat, n: nat)
    requires Silent(c, r, n) && q < |c.replays|
    ensures Silent(ReplaySend(c, q), r, n)
  {
  }

  lemma {:induction false} SilentPeer(s: Store, registered: bool, c: Client, a: PeerStep, r: nat, n: nat)
    requires Silent(c, r, n)
    ensures Silent(PeerNext(s, registered, c, a), r, n)
  {
    if a.SendReplay? && a.r < |c.replays| {
      SilentSend(c, a.r, r, n);
    }
  }

  lemma {:induction false} SilentStep(s: State, st: Step, c: nat, r: nat, n: nat)
    requires c < |s.clients| && Silent(s.clients[c], r, n)
    ensures c < |Next(s, st).clients| && Silent(Next(s, st).clients[c], r, n)
  {
    if st.Peer? && st.c == c {
      SilentPeer(s.store, c in s.hub.registered, s.clients[c], st.p, r, n);
    }
  }

  /** A replay whose query fails enqueues nothing, in every continuation. */
  lemma {:induction false} FailedQueryIsSilent(s: State, c: nat, r: nat, steps: seq<Step>)
    requires c < |s.clients| && r < |s.clients[c].replays| && s.clients[c].replays[r].phase == Querying
    ensures var t := Exec(Next(s, Peer(c, Query(r, false))), steps);
            c < |t.clients| && Silent(t.clients[c], r, |s.clients[c].log|)
  {
    if steps != [] {
      FailedQueryIsSilent(s, c, r, steps[..|steps| - 1]);
      SilentStep(Exec(Next(s, Peer(c, Query(r, false))), steps[..|steps| - 1]), steps[|steps| - 1], c, r, |s.clients[c].log|);
    }
  }

  /** Of the clients in the map, a revocation reaches exactly the member's, if subscribed and with room. */
  lemma {:induction false} RevocationReachesIff(s: State, c: nat, project: string, user: string)
    requires Inv(s) && c in s.hub.registered
    ensures var (d, log) := (s.clients[c], Next(s, Peer(c, Revoke(project, user))).clients[c].log);
            log == d.log + if project in d.subs && d.user == user && |d.log| - d.drained < 256 then [Revoked(project)] else []
  {
  }

  lemma {:induction false} OutStep(s: State, st: Step, c: nat, p: string)
    requires c < |s.clients| && p !in s.clients[c].subs
    ensures c < |Next(s, st).clients| && LiveOn(Next(s, st).clients[c].log, p) == LiveOn(s.clients[c].log, p)
  {
    if st.Peer? && st.c == c {
      var d := PeerNext(s.store, c in s.hub.registered, s.clients[c], st.p);
      PeerFrame(s.store, c in s.hub.registered, s.clients[c], st.p);
      PeerAddsNoLive(s.clients[c], d, p);
    } else if st == HubDeliver(c) && c in s.hub.todo && s.hub.taken != [] {
      var m := s.hub.taken[|s.hub.taken| - 1];
      OutOffer(s.clients[c], m, p);
      assert Next(s, st).clients[c] == DeliverTo(s.clients[c], m).0;
    } else {
      assert Next(s, st).clients[c].log == s.clients[c].log;
    }
  }

  lemma {:induction false} OutOffer(c: Client, m: Msg, p: string)
    requires p !in c.subs
    ensures LiveOn(DeliverTo(c, m).0.log, p) == LiveOn(c.log, p)
  {
    LiveSnoc(c.log, Live(m.tok, m.project), p);
  }

  /** An unsubscribe takes effect at once, and while a client is not subscribed it is sent no event of the project live. */
  lemma {:induction false} UnsubscribedGetsNothing(s: State, c: nat, p: string, steps: seq<Step>)
    requires c < |s.clients| && s.clients[c].reader == Idle
    requires steps != [] && steps[0] == Peer(c, Unsubscribe(p))
    requires forall k | 1 <= k <= |steps| :: c < |Exec(s, steps[..k]).clients| && p !in Exec(s, steps[..k]).clients[c].subs
    ensures Next(s, steps[0]).clients[c].subs == s.clients[c].subs - {p}
    ensures c < |Exec(s, steps).clients| && LiveOn(Exec(s, steps).clients[c].log, p) == LiveOn(s.clients[c].log, p)
  {
    var n := |steps| - 1;
    if n == 0 {
      assert steps[..0] == [];
    } else {
      forall k | 1 <= k <= n
        ensures steps[..n][..k] == steps[..k]
      {
      }
      UnsubscribedGetsNothing(s, c, p, steps[..n]);
      assert c < |Exec(s, steps[..n]).clients| && p !in Exec(s, steps[..n]).clients[c].subs;
      OutStep(Exec(s, steps[..n]), steps[n], c, p);
    }
  }
}
