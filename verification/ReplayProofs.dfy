/**
 Replays under every interleaving: what a query selects, what its goroutine enqueues, when it enqueues everything,
 and when a send can hit a closed channel.
 */
module ReplayProofs {
  import opened Common
  import opened Delivery
  import opened DeliveryProofs

  // ---------- what a query selects ----------

  lemma {:induction false} MatchingHas(events: seq<Row>, p: string, since: int, row: Row)
    ensures row in Matching(events, p, since) <==> row in events && row.project == p && row.id > since
  {
    if events != [] {
      var n := |events| - 1;
      MatchingHas(events[..n], p, since, row);
      assert events == events[..n] + [events[n]];
    }
  }

  lemma {:induction false} MatchingIsOrdered(events: seq<Row>, p: string, since: int)
    requires Ordered(events)
    ensures Ordered(Matching(events, p, since))
  {
    if events != [] {
      var n := |events| - 1;
      MatchingIsOrdered(events[..n], p, since);
      var m := Matching(events[..n], p, since);
      forall i | 0 <= i < |m|
        ensures m[i].id < events[n].id && m[i].createdAt <= events[n].createdAt
      {
        MatchingHas(events[..n], p, since, m[i]);
        assert m[i] in m;
      }
    }
  }

  /**
   A query returns ids in ascending order, and unless it returns MAX_REPLAY rows (which makes the replay ask for a
   resync) it returns exactly the retained rows of the project behind `since`.
   */
  lemma {:induction false} SelectIsExact(events: seq<Row>, p: string, since: int)
    requires Ordered(events)
    ensures var rows := Select(events, p, since);
            && Ordered(rows) && |rows| <= MAX_REPLAY
            && (forall row | row in rows :: row in events && row.project == p && row.id > since)
            && (|rows| < MAX_REPLAY ==>
                  forall row :: row in rows <==> row in events && row.project == p && row.id > since)
  {
    var m, rows := Matching(events, p, since), Select(events, p, since);
    MatchingIsOrdered(events, p, since);
    forall row
      ensures row in m <==> row in events && row.project == p && row.id > since
    {
      MatchingHas(events, p, since, row);
    }
    assert forall row | row in rows :: row in m;
  }

  // ---------- the state of each replay ----------

  /** After its query, a replay works on what the table held then: the history between its floor and its ceiling. */
  ghost predicate ReplayOk(history: seq<Row>, rp: Replay) {
    && (rp.phase.Querying? || rp.phase.Failed? ==> rp.next == 0)
    && (!rp.phase.Querying? && !rp.phase.Failed? ==>
          && rp.floor <= rp.ceil <= |history|
          && rp.rows == Select(history[rp.floor..rp.ceil], rp.project, rp.since)
          && rp.next <= |rp.rows|
          && (rp.phase.Resyncing? ==> |rp.rows| == MAX_REPLAY)
          && (rp.phase.Sending? ==> |rp.rows| < MAX_REPLAY)
          && (rp.phase.Ended? ==> |rp.rows| == MAX_REPLAY || rp.next == |rp.rows|))
  }

  /** Tokens of the frames one replay has enqueued. */
  function ReplayedBy(log: seq<Frame>, r: nat): seq<nat> {
    if log == [] then []
    else
      var f := log[|log| - 1];
      ReplayedBy(log[..|log| - 1], r) + if f.Replayed? && f.replay == r then [f.tok] else []
  }

  predicate IsSubsequence(a: seq<nat>, b: seq<nat>) {
    if a == [] then true
    else if b == [] then false
    else if a[|a| - 1] == b[|b| - 1] && IsSubsequence(a[..|a| - 1], b[..|b| - 1]) then true
    else IsSubsequence(a, b[..|b| - 1])
  }

  /** Tokens of the first `n` rows. */
  function Tokens(rows: seq<Row>, n: nat): seq<nat>
    requires n <= |rows|
  {
    if n == 0 then [] else Tokens(rows, n - 1) + [rows[n - 1].tok]
  }

  /** The frames of replay `r`: an ordered subsequence of the rows it has worked through. */
  ghost predicate FramesOk(c: Client, r: nat) {
    if r < |c.replays| && c.replays[r].next <= |c.replays[r].rows| then
      IsSubsequence(ReplayedBy(c.log, r), Tokens(c.replays[r].rows, c.replays[r].next))
    else ReplayedBy(c.log, r) == []
  }

  ghost predicate ClientOk(history: seq<Row>, c: Client) {
    && (forall r :: 0 <= r < |c.replays| ==> ReplayOk(history, c.replays[r]))
    && (forall r: nat :: FramesOk(c, r))
    && (c.reader.Acking? ==> c.reader.project in c.subs)
  }

  ghost predicate AllOk(s: State) {
    Inv(s) && forall c :: 0 <= c < |s.clients| ==> ClientOk(s.store.history, s.clients[c])
  }

  lemma {:induction false} ReplayedSnoc(log: seq<Frame>, f: Frame, r: nat)
    ensures ReplayedBy(log + [f], r) == if f.Replayed? && f.replay == r then ReplayedBy(log, r) + [f.tok] else ReplayedBy(log, r)
  {
    assert (log + [f])[..|log|] == log;
  }

  lemma {:induction false} OtherFrame(c: Client, f: Frame, r: nat)
    requires FramesOk(c, r) && !(f.Replayed? && f.replay == r)
    ensures FramesOk(c.Offer(f), r)
  {
    ReplayedSnoc(c.log, f, r);
  }

  lemma {:induction false} ReplayOkGrows(history: seq<Row>, more: seq<Row>, rp: Replay)
    requires ReplayOk(history, rp)
    ensures ReplayOk(history + more, rp)
  {
    if !rp.phase.Querying? && !rp.phase.Failed? {
      assert (history + more)[rp.floor..rp.ceil] == history[rp.floor..rp.ceil];
    }
  }

  lemma {:induction false} QueryOk(s: Store, taken: seq<Msg>, rp: Replay, ok: bool)
    requires StoreInv(s, taken) && rp.phase.Querying? && rp.next == 0
    ensures ReplayOk(s.history, ReplayQuery(s, rp, ok))
  {
    SelectIsExact(s.events, rp.project, rp.since);
    assert s.history[|s.history| - |s.events|..|s.history|] == s.events;
  }

  /** The client after replay `r` has offered its next row. */
  function Offered(c: Client, r: nat): Client
    requires r < |c.replays| && c.replays[r].next < |c.replays[r].rows|
  {
    var rp := c.replays[r];
    c.Offer(Replayed(r, rp.rows[rp.next].tok)).(replays := c.replays[r := rp.(next := rp.next + 1)])
  }

  lemma {:induction false} FramesStep(log: seq<Frame>, log2: seq<Frame>, r: nat, rows: seq<Row>, n: nat)
    requires n < |rows| && IsSubsequence(ReplayedBy(log, r), Tokens(rows, n))
    requires log2 == log || log2 == log + [Replayed(r, rows[n].tok)]
    ensures IsSubsequence(ReplayedBy(log2, r), Tokens(rows, n + 1))
  {
    var a, b, x := ReplayedBy(log, r), Tokens(rows, n), rows[n].tok;
    SubsequenceGrows(a, b, x);
    if log2 != log {
      ReplayedSnoc(log, Replayed(r, x), r);
      assert ReplayedBy(log2, r) == a + [x];
    }
  }

  lemma {:induction false} OwnSendFrames(c: Client, r: nat)
    requires r < |c.replays| && c.replays[r].next < |c.replays[r].rows| && FramesOk(c, r)
    ensures FramesOk(Offered(c, r), r)
  {
    FramesStep(c.log, Offered(c, r).log, r, c.replays[r].rows, c.replays[r].next);
  }

  lemma {:induction false} OtherSendFrames(c: Client, r: nat, q: nat)
    requires r < |c.replays| && c.replays[r].next < |c.replays[r].rows| && FramesOk(c, q) && q != r
    ensures FramesOk(Offered(c, r), q)
  {
    ReplayedSnoc(c.log, Replayed(r, c.replays[r].rows[c.replays[r].next].tok), q);
  }

  lemma {:induction false} SubsequenceGrows(a: seq<nat>, b: seq<nat>, x: nat)
    requires IsSubsequence(a, b)
    ensures IsSubsequence(a, b + [x]) && IsSubsequence(a + [x], b + [x])
  {
    assert (b + [x])[..|b|] == b && (a + [x])[..|a|] == a;
  }

  /** The client after a replay's resync offer. */
  function ResyncOffered(c: Client, r: nat): Client
    requires r < |c.replays|
  {
    c.Offer(Resync(r, c.replays[r].project)).(replays := c.replays[r := c.replays[r].(phase := Ended)])
  }

  lemma {:induction false} ResyncFrames(c: Client, r: nat, q: nat)
    requires FramesOk(c, q) && r < |c.replays|
    ensures FramesOk(ResyncOffered(c, r), q)
  {
    ReplayedSnoc(c.log, Resync(r, c.replays[r].project), q);
  }

  lemma {:induction false} SendFramesOk(c: Client, r: nat, q: nat)
    requires FramesOk(c, q) && r < |c.replays| && (c.replays[r].phase.Sending? ==> c.replays[r].next <= |c.replays[r].rows|)
    ensures FramesOk(ReplaySend(c, r), q)
  {
    var rp := c.replays[r];
    if c.closes > 0 || !AboutToSend(rp) {
    } else if rp.phase.Resyncing? {
      ResyncFrames(c, r, q);
      assert ReplaySend(c, r) == ResyncOffered(c, r);
    } else {
      if q == r {
        OwnSendFrames(c, r);
      } else {
        OtherSendFrames(c, r, q);
      }
      assert ReplaySend(c, r) == Offered(c, r);
    }
  }

  lemma {:induction false} SendOk(history: seq<Row>, c: Client, r: nat)
    requires ClientOk(history, c) && r < |c.replays|
    ensures ClientOk(history, ReplaySend(c, r))
  {
    var d := ReplaySend(c, r);
    assert ReplayOk(history, c.replays[r]);
    assert ReplayOk(history, d.replays[r]);
    forall q: nat
      ensures FramesOk(d, q)
    {
      assert FramesOk(c, q);
      SendFramesOk(c, r, q);
    }
  }

  lemma {:induction false} AckOk(s: Store, registered: bool, history: seq<Row>, c: Client)
    requires ClientOk(history, c)
    ensures ClientOk(history, PeerNext(s, registered, c, SendAck))
  {
    var d := PeerNext(s, registered, c, SendAck);
    forall q: nat
      ensures FramesOk(d, q)
    {
      assert FramesOk(c, q);
      if c.reader.Acking? && c.closes == 0 {
        OtherFrame(c, Ack(c.reader.project), q);
      }
    }
  }

  lemma {:induction false} QueryStepOk(s: Store, taken: seq<Msg>, registered: bool, c: Client, r: nat, ok: bool)
    requires StoreInv(s, taken) && ClientOk(s.history, c)
    ensures ClientOk(s.history, PeerNext(s, registered, c, Query(r, ok)))
  {
    var d := PeerNext(s, registered, c, Query(r, ok));
    if d != c {
      QueryOk(s, taken, c.replays[r], ok);
      forall q: nat
        ensures FramesOk(d, q)
      {
        assert FramesOk(c, q);
      }
    }
  }

  lemma {:induction false} PeerOk(s: Store, taken: seq<Msg>, registered: bool, c: Client, a: PeerStep)
    requires StoreInv(s, taken) && ClientOk(s.history, c)
    ensures ClientOk(s.history, PeerNext(s, registered, c, a))
  {
    match a
    case SendAck => AckOk(s, registered, s.history, c);
    case Query(r, ok) => QueryStepOk(s, taken, registered, c, r, ok);
    case SendReplay(r) =>
      if r < |c.replays| {
        SendOk(s.history, c, r);
      }
    case Revoke(project, _) => FrameOk(s.history, c, Revoked(project));
    case _ => SameFramesOk(s.history, c, PeerNext(s, registered, c, a));
  }

  /** A frame that is not a replay's, or a change of other fields, keeps the replays in order. */
  lemma {:induction false} FrameOk(history: seq<Row>, c: Client, f: Frame)
    requires ClientOk(history, c) && !f.Replayed?
    ensures ClientOk(history, c.Offer(f)) && ClientOk(history, c.(hubMisuse := true))
  {
    forall q: nat
      ensures FramesOk(c.Offer(f), q) && FramesOk(c.(hubMisuse := true), q)
    {
      assert FramesOk(c, q);
      OtherFrame(c, f, q);
    }
  }

  lemma {:induction false} SameFramesOk(history: seq<Row>, c: Client, d: Client)
    requires ClientOk(history, c) && d.log == c.log && d.replays == c.replays
    requires d.reader.Acking? ==> d.reader.project in d.subs
    ensures ClientOk(history, d)
  {
    forall q: nat
      ensures FramesOk(d, q)
    {
      assert FramesOk(c, q);
    }
  }

  lemma {:induction false} HistoryGrows(s: Store, a: StoreStep)
    ensures exists more :: StoreNext(s, a).history == s.history + more
  {
    var t := StoreNext(s, a);
    if t.history == s.history {
      assert t.history == s.history + [];
    } else {
      assert t.history == s.history + [t.history[|s.history|]];
    }
  }

  lemma {:induction false} StoreOk(history: seq<Row>, more: seq<Row>, c: Client)
    requires ClientOk(history, c)
    ensures ClientOk(history + more, c)
  {
    forall r | 0 <= r < |c.replays|
      ensures ReplayOk(history + more, c.replays[r])
    {
      ReplayOkGrows(history, more, c.replays[r]);
    }
  }

  lemma {:induction false} DeliverOk(history: seq<Row>, c: Client, m: Msg)
    requires ClientOk(history, c)
    ensures ClientOk(history, DeliverTo(c, m).0) && ClientOk(history, Close(c))
  {
    FrameOk(history, c, Live(m.tok, m.project));
    SameFramesOk(history, c, Close(c));
  }

  lemma {:induction false} NextOk(s: State, st: Step)
    requires AllOk(s)
    ensures AllOk(Next(s, st))
  {
    NextKeepsInv(s, st);
    match st
    case InStore(a) =>
      HistoryGrows(s.store, a);
      var more :| StoreNext(s.store, a).history == s.store.history + more;
      forall c | 0 <= c < |s.clients|
        ensures ClientOk(s.store.history + more, s.clients[c])
      {
        StoreOk(s.store.history, more, s.clients[c]);
      }
    case Connect(user) => NewClientOk(s.store.history, user);
    case Disconnect(c) =>
      if c < |s.clients| {
        SameFramesOk(s.store.history, s.clients[c], s.clients[c].(reader := Gone));
      }
    case HubUnregister =>
      if s.hub.unregister != [] && s.hub.unregister[0] < |s.clients| {
        DeliverOk(s.store.history, s.clients[s.hub.unregister[0]], Msg(0, ""));
      }
    case HubDeliver(c) =>
      if c < |s.clients| && s.hub.taken != [] {
        DeliverOk(s.store.history, s.clients[c], s.hub.taken[|s.hub.taken| - 1]);
      }
    case Peer(c, a) =>
      if c < |s.clients| {
        PeerOk(s.store, s.hub.taken, c in s.hub.registered, s.clients[c], a);
      }
    case _ =>
  }

  lemma {:induction false} NewClientOk(history: seq<Row>, user: string)
    ensures ClientOk(history, NewClient(user))
  {
    forall q: nat
      ensures FramesOk(NewClient(user), q)
    {
    }
  }

  lemma {:induction false} ExecOk(s: State, steps: seq<Step>)
    requires AllOk(s)
    ensures AllOk(Exec(s, steps))
  {
    if steps != [] {
      ExecOk(s, steps[..|steps| - 1]);
      NextOk(Exec(s, steps[..|steps| - 1]), steps[|steps| - 1]);
    }
  }

  /**
   In every run every replay works on what the table held at its query, and the frames it has enqueued are an
   ordered subsequence of the rows it has worked through.
   */
  lemma {:induction false} ReplaysFollowTheirSelection(steps: seq<Step>, c: nat, r: nat)
    requires var s := Exec(Start(), steps); c < |s.clients| && r < |s.clients[c].replays|
    ensures var s := Exec(Start(), steps);
            ReplayOk(s.store.history, s.clients[c].replays[r]) && FramesOk(s.clients[c], r)
  {
    ExecOk(Start(), steps);
  }

  // ---------- replays that always find room ----------

  /** The step is not one at which replay `r` has a frame to send and finds the buffer full. */
  predicate Roomy(s: State, st: Step, c: nat, r: nat) {
    st == Peer(c, SendReplay(r)) && c < |s.clients| ==> FindsRoom(s.clients[c], r)
  }

  predicate FindsRoom(c: Client, r: nat) {
    r < |c.replays| && AboutToSend(c.replays[r]) ==> c.HasRoom()
  }

  /** The replay's sends find room at every point of the run. */
  predicate AlwaysRoomy(s: State, steps: seq<Step>, c: nat, r: nat) {
    steps != [] ==>
      var earlier := steps[..|steps| - 1];
      AlwaysRoomy(s, earlier, c, r) && Roomy(Exec(s, earlier), steps[|steps| - 1], c, r)
  }

  /** Nothing has been dropped: the frames are exactly the rows worked through. */
  ghost predicate Complete(c: Client, r: nat) {
    && r < |c.replays|
    && var rp := c.replays[r];
       if rp.phase.Querying? || rp.phase.Failed? then ReplayedBy(c.log, r) == []
       else rp.next <= |rp.rows| && ReplayedBy(c.log, r) == Tokens(rp.rows, rp.next)
  }

  lemma {:induction false} OtherFrameComplete(c: Client, f: Frame, r: nat)
    requires Complete(c, r) && !(f.Replayed? && f.replay == r)
    ensures Complete(c.Offer(f), r)
  {
    ReplayedSnoc(c.log, f, r);
  }

  lemma {:induction false} SameComplete(c: Client, d: Client, r: nat)
    requires Complete(c, r) && d.log == c.log && r < |d.replays| && d.replays[r] == c.replays[r]
    ensures Complete(d, r)
  {
  }

  lemma {:induction false} OwnSendComplete(c: Client, r: nat)
    requires Complete(c, r) && FindsRoom(c, r)
    ensures Complete(ReplaySend(c, r), r)
  {
    var rp := c.replays[r];
    if c.closes == 0 && AboutToSend(rp) {
      if rp.phase.Resyncing? {
        ReplayedSnoc(c.log, Resync(r, rp.project), r);
        assert ReplaySend(c, r) == ResyncOffered(c, r);
      } else {
        OfferedComplete(c, r);
        assert ReplaySend(c, r) == Offered(c, r);
      }
    }
  }

  lemma {:induction false} OfferedComplete(c: Client, r: nat)
    requires Complete(c, r) && c.HasRoom() && c.replays[r].phase.Sending? && c.replays[r].next < |c.replays[r].rows|
    ensures Complete(Offered(c, r), r)
  {
    var rp := c.replays[r];
    var d := Offered(c, r);
    ReplayedSnoc(c.log, Replayed(r, rp.rows[rp.next].tok), r);
    assert d.log == c.log + [Replayed(r, rp.rows[rp.next].tok)] && d.replays[r] == rp.(next := rp.next + 1);
    assert Tokens(rp.rows, rp.next + 1) == Tokens(rp.rows, rp.next) + [rp.rows[rp.next].tok];
  }

  lemma {:induction false} OtherSendComplete(c: Client, q: nat, r: nat)
    requires Complete(c, r) && q < |c.replays| && q != r
    ensures Complete(ReplaySend(c, q), r)
  {
    var rp := c.replays[q];
    if c.closes > 0 || !AboutToSend(rp) {
      SameComplete(c, ReplaySend(c, q), r);
    } else if rp.phase.Resyncing? {
      OtherFrameComplete(c, Resync(q, rp.project), r);
      SameComplete(c.Offer(Resync(q, rp.project)), ReplaySend(c, q), r);
    } else {
      OtherFrameComplete(c, Replayed(q, rp.rows[rp.next].tok), r);
      SameComplete(c.Offer(Replayed(q, rp.rows[rp.next].tok)), ReplaySend(c, q), r);
    }
  }

  lemma {:induction false} AckComplete(s: Store, registered: bool, c: Client, r: nat)
    requires Complete(c, r)
    ensures Complete(PeerNext(s, registered, c, SendAck), r)
  {
    var d := PeerNext(s, registered, c, SendAck);
    if c.reader.Acking? && c.closes == 0 {
      OtherFrameComplete(c, Ack(c.reader.project), r);
      SameComplete(c.Offer(Ack(c.reader.project)), d, r);
    } else {
      SameComplete(c, d, r);
    }
  }

  lemma {:induction false} PeerComplete(s: Store, registered: bool, c: Client, a: PeerStep, r: nat)
    requires Complete(c, r) && (a == SendReplay(r) ==> FindsRoom(c, r))
    ensures Complete(PeerNext(s, registered, c, a), r)
  {
    match a
    case SendReplay(q) =>
      if q == r {
        OwnSendComplete(c, r);
      } else if q < |c.replays| {
        OtherSendComplete(c, q, r);
      }
    case SendAck => AckComplete(s, registered, c, r);
    case Revoke(project, _) => OtherFrameComplete(c, Revoked(project), r);
    case _ =>
  }

  lemma {:induction false} NextComplete(s: State, st: Step, c: nat, r: nat)
    requires c < |s.clients| && Complete(s.clients[c], r) && Roomy(s, st, c, r)
    ensures var t := Next(s, st); c < |t.clients| && Complete(t.clients[c], r)
  {
    if st.Peer? && st.c == c {
      PeerComplete(s.store, c in s.hub.registered, s.clients[c], st.p, r);
    } else if st == HubDeliver(c) && s.hub.taken != [] {
      var m := s.hub.taken[|s.hub.taken| - 1];
      OtherFrameComplete(s.clients[c], Live(m.tok, m.project), r);
    }
  }

  /** If its sends always find room, a replay enqueues every row it selected, in order and nothing else. */
  lemma {:induction false} RoomyReplayIsComplete(s: State, steps: seq<Step>, c: nat, r: nat)
    requires AllOk(s) && c < |s.clients| && r < |s.clients[c].replays| && s.clients[c].replays[r].phase.Querying?
    requires AlwaysRoomy(s, steps, c, r)
    ensures var t := Exec(s, steps); c < |t.clients| && Complete(t.clients[c], r)
  {
    if steps == [] {
      assert FramesOk(s.clients[c], r) && ReplayOk(s.store.history, s.clients[c].replays[r]);
    } else {
      RoomyReplayIsComplete(s, steps[..|steps| - 1], c, r);
      NextComplete(Exec(s, steps[..|steps| - 1]), steps[|steps| - 1], c, r);
    }
  }

  // ---------- sends on closed channels ----------

  /** The read loop has ended, and no replay will have anything to send. */
  predicate Quiet(c: Client) {
    c.reader.Gone? && forall r :: 0 <= r < |c.replays| ==> !c.replays[r].phase.Querying? && !AboutToSend(c.replays[r])
  }

  predicate Crashed(s: State, c: nat) {
    c < |s.clients| && s.clients[c].crash
  }

  /** No continuation sends on the client's closed channel. */
  ghost predicate NeverCrashes(s: State, c: nat) {
    forall steps: seq<Step> :: !Crashed(Exec(s, steps), c)
  }

  lemma {:induction false} QuietPeer(s: Store, c: Client, a: PeerStep)
    requires Quiet(c) && !c.crash
    ensures var d := PeerNext(s, false, c, a); Quiet(d) && !d.crash
  {
  }

  lemma {:induction false} QuietStep(s: State, st: Step, c: nat)
    requires Inv(s) && c < |s.clients| && s.clients[c].closes == 1 && Quiet(s.clients[c]) && !s.clients[c].crash
    ensures var t := Next(s, st); c < |t.clients| && Quiet(t.clients[c]) && !t.clients[c].crash
  {
    assert c !in s.hub.registered;
    if st.Peer? && st.c == c {
      QuietPeer(s.store, s.clients[c], st.p);
    }
  }

  lemma {:induction false} QuietForGood(s: State, steps: seq<Step>, c: nat)
    requires Inv(s) && c < |s.clients| && s.clients[c].closes == 1 && Quiet(s.clients[c]) && !s.clients[c].crash
    ensures var t := Exec(s, steps); c < |t.clients| && Quiet(t.clients[c]) && !t.clients[c].crash
  {
    if steps != [] {
      var earlier := steps[..|steps| - 1];
      QuietForGood(s, earlier, c);
      ExecKeepsInv(s, earlier);
      RemovedForGood(s, earlier, c);
      QuietStep(Exec(s, earlier), steps[|steps| - 1], c);
    }
  }

  /** A closed client that is not quiet has a continuation that sends on its channel. */
  lemma {:induction false} UnquietCrashes(s: State, c: nat) returns (steps: seq<Step>)
    requires c < |s.clients| && s.clients[c].closes == 1 && !Quiet(s.clients[c])
    ensures Crashed(Exec(s, steps), c)
  {
    var d, t := s.clients[c], s;
    steps := [];
    if d.reader.Idle? {
      steps, t := Then(s, steps, t, Peer(c, Subscribe("", None)));
      steps, t := Then(s, steps, t, Peer(c, SendAck));
    } else if d.reader.Acking? {
      steps, t := Then(s, steps, t, Peer(c, SendAck));
    } else {
      var r :| 0 <= r < |d.replays| && (d.replays[r].phase.Querying? || AboutToSend(d.replays[r]));
      if d.replays[r].phase.Querying? {
        steps, t := QueryFindsRow(s, c, r);
      }
      steps, t := Then(s, steps, t, Peer(c, SendReplay(r)));
    }
  }

  /** A query can always be made to return something. */
  lemma {:induction false} QueryFindsRow(s: State, c: nat, r: nat) returns (steps: seq<Step>, t: State)
    requires c < |s.clients| && r < |s.clients[c].replays| && s.clients[c].replays[r].phase.Querying?
    ensures Exec(s, steps) == t && c < |t.clients| && t.clients[c].closes == s.clients[c].closes
    ensures r < |t.clients[c].replays| && AboutToSend(t.clients[c].replays[r])
  {
    var rp := s.clients[c].replays[r];
    steps, t := RowArrives(s, rp.project, rp.since);
    steps, t := Then(s, steps, t, Peer(c, Query(r, true)));
  }

  lemma {:induction false} RowArrives(s: State, p: string, since: int) returns (steps: seq<Step>, t: State)
    ensures Exec(s, steps) == t && t.clients == s.clients
    ensures Select(t.store.events, p, since) != []
  {
    var id, at := RowFits(s.store, p, since);
    var m;
    steps, m := Then(s, [], s, InStore(Publish(p)));
    steps, t := Then(s, steps, m, InStore(AppendOk(|s.store.pubs|, id, at)));
  }

  lemma {:induction false} RowFits(s: Store, p: string, since: int) returns (id: int, at: int)
    ensures Select(StoreNext(StoreNext(s, Publish(p)), AppendOk(|s.pubs|, id, at)).events, p, since) != []
  {
    var h := s.history;
    id := 1 + if h == [] || h[|h| - 1].id < since then since else h[|h| - 1].id;
    at := if h == [] then 0 else h[|h| - 1].createdAt;
    var row := Row(id, |s.pubs|, p, at);
    assert StoreNext(StoreNext(s, Publish(p)), AppendOk(|s.pubs|, id, at)).events == s.events + [row];
    MatchingHas(s.events + [row], p, since, row);
  }

  /**
   Once the hub has closed a client's channel, no continuation ever sends on it if and only if the read loop has
   ended and no replay is still to query or has a frame left.
   */
  lemma {:induction false} NoSendAfterCloseIff(s: State, c: nat)
    requires Inv(s) && c < |s.clients| && s.clients[c].closes == 1 && !s.clients[c].crash
    ensures NeverCrashes(s, c) <==> Quiet(s.clients[c])
  {
    if Quiet(s.clients[c]) {
      forall steps
        ensures !Crashed(Exec(s, steps), c)
      {
        QuietForGood(s, steps, c);
      }
    } else {
      var steps := UnquietCrashes(s, c);
      assert Crashed(Exec(s, steps), c);
    }
  }

  lemma {:induction false} OneEventOneSubscriber() returns (steps: seq<Step>, s: State)
    ensures Exec(Start(), steps) == s
    ensures s.store.events == [Row(1, 0, "p", 0)] && s.hub == Hub({0}, [], [], [], {}) && |s.clients| == 1
    ensures s.clients[0].closes == 0 && s.clients[0].reader.Idle? && s.clients[0].subs == {"p"}
    ensures s.clients[0].replays == [Replay("p", 0, Querying, [], 0, 0, 0)]
  {
    steps, s := [], Start();
    steps, s := Then(Start(), steps, s, InStore(Publish("p")));
    steps, s := Then(Start(), steps, s, InStore(AppendOk(0, 1, 0)));
    steps, s := Then(Start(), steps, s, Connect("u"));
    steps, s := Then(Start(), steps, s, HubRegister);
    steps, s := Then(Start(), steps, s, Peer(0, Subscribe("p", Some(0))));
    steps, s := Then(Start(), steps, s, Peer(0, SendAck));
  }

  /** Such a run exists: the client leaves while its replay still has a row to send. */
  lemma {:induction false} ReplayMayOutliveItsChannel() returns (steps: seq<Step>)
    ensures var s := Exec(Start(), steps); |s.clients| == 1 && s.clients[0].crash
  {
    var s;
    steps, s := OneEventOneSubscriber();
    MatchingHas(s.store.events, "p", 0, s.store.events[0]);
    steps, s := Then(Start(), steps, s, Peer(0, Query(0, true)));
    assert s.clients[0].replays[0].rows != [];
    steps, s := Then(Start(), steps, s, Disconnect(0));
    steps, s := Then(Start(), steps, s, HubUnregister);
    assert s.clients[0].closes == 1 && AboutToSend(s.clients[0].replays[0]);
    steps, s := Then(Start(), steps, s, Peer(0, SendReplay(0)));
  }

  /** Extends a run by one step. */
  lemma {:induction false} Then(s0: State, steps: seq<Step>, s: State, st: Step) returns (steps2: seq<Step>, t: State)
    requires Exec(s0, steps) == s
    ensures Exec(s0, steps2) == t == Next(s, st)
  {
    steps2, t := steps + [st], Next(s, st);
    assert steps2[..|steps|] == steps;
  }
}
