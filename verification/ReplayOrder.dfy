/**
 When a replayed row can follow a newer live one: as long as the replay has rows left, because the hub and the replay
 send on the same channel without knowing of each other.
 */
module ReplayOrder {
  import opened Delivery
  import opened DeliveryProofs
  import opened ReplayProofs

  /** A frame from position `n` on replays an event older than one that was enqueued live before it. */
  ghost predicate Misplaced(history: seq<Row>, log: seq<Frame>, r: nat, n: nat) {
    exists i, j, a, b ::
      && 0 <= i < j < |log| && n <= j && 0 <= b < a < |history|
      && log[i] == Live(history[a].tok, history[a].project) && log[j] == Replayed(r, history[b].tok)
  }

  ghost predicate MisplacedIn(t: State, c: nat, r: nat, n: nat) {
    c < |t.clients| && Misplaced(t.store.history, t.clients[c].log, r, n)
  }

  /** No continuation replays a row behind a newer live one. */
  ghost predicate StaysInPlace(s: State, c: nat, r: nat)
    requires c < |s.clients|
  {
    forall steps: seq<Step> :: !MisplacedIn(Exec(s, steps), c, r, |s.clients[c].log|)
  }

  /** The replay is still to query, or has a row left to send. */
  predicate RowsLeft(rp: Replay) {
    rp.phase.Querying? || (rp.phase.Sending? && rp.next < |rp.rows|)
  }

  // ---------- without rows left ----------

  /** No frame from position `n` on is the replay's. */
  ghost predicate NoneReplayed(log: seq<Frame>, r: nat, n: nat) {
    n <= |log| && forall j :: n <= j < |log| ==> !(log[j].Replayed? && log[j].replay == r)
  }

  /** At most one frame is added, and it is not the replay's. */
  ghost predicate AddsOther(log: seq<Frame>, log2: seq<Frame>, r: nat) {
    log2 == log || (|log2| == |log| + 1 && log == log2[..|log|] && !(log2[|log|].Replayed? && log2[|log|].replay == r))
  }

  lemma {:induction false} NoRowsSend(c: Client, q: nat, r: nat)
    requires r < |c.replays| && q < |c.replays| && !RowsLeft(c.replays[r])
    ensures var d := ReplaySend(c, q);
            r < |d.replays| && !RowsLeft(d.replays[r]) && AddsOther(c.log, d.log, r)
  {
  }

  lemma {:induction false} NoRowsPeer(s: Store, registered: bool, c: Client, a: PeerStep, r: nat)
    requires r < |c.replays| && !RowsLeft(c.replays[r])
    ensures var d := PeerNext(s, registered, c, a);
            r < |d.replays| && !RowsLeft(d.replays[r]) && AddsOther(c.log, d.log, r)
  {
    if a.SendReplay? {
      if a.r < |c.replays| {
        NoRowsSend(c, a.r, r);
      }
    } else {
      var d := PeerNext(s, registered, c, a);
      assert |c.replays| <= |d.replays| && d.replays[r] == c.replays[r];
    }
  }

  lemma {:induction false} NoRowsStep(s: State, st: Step, c: nat, r: nat)
    requires c < |s.clients| && r < |s.clients[c].replays| && !RowsLeft(s.clients[c].replays[r])
    ensures var t := Next(s, st);
            && c < |t.clients| && r < |t.clients[c].replays| && !RowsLeft(t.clients[c].replays[r])
            && AddsOther(s.clients[c].log, t.clients[c].log, r)
  {
    if st.Peer? && st.c == c {
      NoRowsPeer(s.store, c in s.hub.registered, s.clients[c], st.p, r);
    }
  }

  lemma {:induction false} StillNoneReplayed(log: seq<Frame>, log2: seq<Frame>, r: nat, n: nat)
    requires NoneReplayed(log, r, n) && AddsOther(log, log2, r)
    ensures NoneReplayed(log2, r, n)
  {
    forall j | n <= j < |log2|
      ensures !(log2[j].Replayed? && log2[j].replay == r)
    {
      assert j < |log| ==> log2[j] == log[j];
    }
  }

  /** A replay without rows left enqueues none any more. */
  lemma {:induction false} NoRowsForGood(s: State, steps: seq<Step>, c: nat, r: nat)
    requires c < |s.clients| && r < |s.clients[c].replays| && !RowsLeft(s.clients[c].replays[r])
    ensures var t := Exec(s, steps);
            && c < |t.clients| && r < |t.clients[c].replays| && !RowsLeft(t.clients[c].replays[r])
            && NoneReplayed(t.clients[c].log, r, |s.clients[c].log|)
  {
    if steps != [] {
      var earlier := steps[..|steps| - 1];
      NoRowsForGood(s, earlier, c, r);
      var m := Exec(s, earlier);
      NoRowsStep(m, steps[|steps| - 1], c, r);
      StillNoneReplayed(m.clients[c].log, Next(m, steps[|steps| - 1]).clients[c].log, r, |s.clients[c].log|);
    }
  }

  // ---------- with rows left ----------

  /** From `s` to `t` the client stayed attached and only gained frames or drained some; its replays did not move. */
  ghost predicate Untouched(s: State, t: State, c: nat, p: string) {
    && Inv(t) && Attached(s, c, p) && Attached(t, c, p)
    && s.clients[c].log <= t.clients[c].log && t.clients[c].replays == s.clients[c].replays
    && t.store.history == s.store.history && t.store.pubs == s.store.pubs
  }

  /** A full channel is drained until there is room. */
  lemma {:induction false} MakeRoom(s: State, c: nat, p: string) returns (steps: seq<Step>, t: State)
    requires Inv(s) && Attached(s, c, p)
    ensures Exec(s, steps) == t && Untouched(s, t, c, p) && t.clients[c].HasRoom()
    ensures t.store == s.store && t.hub == s.hub && t.clients[c].log == s.clients[c].log
    decreases |s.clients[c].log| - s.clients[c].drained
  {
    if s.clients[c].HasRoom() {
      steps, t := [], s;
    } else {
      var m := Next(s, Peer(c, Drain));
      NextKeepsInv(s, Peer(c, Drain));
      var rest;
      rest, t := MakeRoom(m, c, p);
      steps := Cons(s, Peer(c, Drain), rest);
    }
  }

  lemma {:induction false} Cons(s: State, st: Step, rest: seq<Step>) returns (steps: seq<Step>)
    ensures Exec(s, steps) == Exec(Next(s, st), rest)
  {
    steps := [st] + rest;
    Joined(s, [st], rest);
    assert [st][..0] == [];
  }

  lemma {:induction false} Joined(s: State, a: seq<Step>, b: seq<Step>)
    ensures Exec(s, a + b) == Exec(Exec(s, a), b)
  {
    if b == [] {
      assert a + b == a;
    } else {
      var n := |b| - 1;
      Joined(s, a, b[..n]);
      assert (a + b)[..|a + b| - 1] == a + b[..n];
    }
  }

  /** An offer to a client with room. */
  lemma {:induction false} OfferWithRoom(s: State, c: nat, x: nat, p: string)
    requires Inv(s) && Attached(s, c, p) && x in s.hub.todo && (x == c ==> s.clients[c].HasRoom())
    ensures var t := Next(s, HubDeliver(x));
            && Untouched(s, t, c, p) && t.hub.todo == s.hub.todo - {x} && t.store == s.store
            && var m := s.hub.taken[|s.hub.taken| - 1];
               x == c && m.project == p ==> t.clients[c].log == s.clients[c].log + [Live(m.tok, p)]
  {
    NextKeepsInv(s, HubDeliver(x));
  }

  /** The hub finishes what it has taken and takes all that is queued. */
  lemma {:induction false} CatchUp(s: State, c: nat, p: string) returns (steps: seq<Step>, t: State)
    requires Inv(s) && Attached(s, c, p)
    ensures Exec(s, steps) == t && Untouched(s, t, c, p) && t.hub.todo == {} && t.store.queue == []
    decreases |s.store.queue|, |s.hub.todo|
  {
    if x :| x in s.hub.todo {
      var a, m := [], s;
      if x == c {
        a, m := MakeRoom(s, c, p);
      }
      OfferWithRoom(m, c, x, p);
      var rest;
      rest, t := CatchUp(Next(m, HubDeliver(x)), c, p);
      rest := Cons(m, HubDeliver(x), rest);
      Joined(s, a, rest);
      steps := a + rest;
    } else if s.store.queue != [] {
      NextKeepsInv(s, HubTake);
      var rest;
      rest, t := CatchUp(Next(s, HubTake), c, p);
      steps := Cons(s, HubTake, rest);
    } else {
      steps, t := [], s;
    }
  }

  /** A new event of the project is appended and put into the empty broadcast channel. */
  lemma {:induction false} Announce(s: State, p: string) returns (steps: seq<Step>, t: State, row: Row)
    requires Inv(s) && s.store.queue == []
    ensures Exec(s, steps) == t && t.clients == s.clients && t.hub == s.hub && Inv(t)
    ensures row.project == p && t.store.history == s.store.history + [row] && t.store.queue == [Msg(row.tok, p)]
  {
    var (h, tok) := (s.store.history, |s.store.pubs|);
    var id := if h == [] then 0 else h[|h| - 1].id + 1;
    var at := if h == [] then 0 else h[|h| - 1].createdAt;
    row := Row(id, tok, p, at);
    Announced(s.store, row);
    steps, t := Then(s, [], s, InStore(Publish(p)));
    steps, t := Then(s, steps, t, InStore(AppendOk(tok, id, at)));
    steps, t := Then(s, steps, t, InStore(Broadcast(tok)));
    ExecKeepsInv(s, steps);
  }

  lemma {:induction false} Announced(s: Store, row: Row)
    requires s.queue == [] && row.tok == |s.pubs| && Follows(s.history, row.id, row.createdAt)
    ensures var a := StoreNext(s, Publish(row.project));
            var b := StoreNext(a, AppendOk(row.tok, row.id, row.createdAt));
            var t := StoreNext(b, Broadcast(row.tok));
            t.history == s.history + [row] && t.queue == [Msg(row.tok, row.project)]
  {
  }

  /** The client is sent a new event live. */
  lemma {:induction false} NewEventLive(s: State, c: nat, p: string) returns (steps: seq<Step>, t: State, row: Row)
    requires Inv(s) && Attached(s, c, p)
    ensures Exec(s, steps) == t && Inv(t) && Attached(t, c, p)
    ensures row.project == p && t.store.history == s.store.history + [row]
    ensures t.clients[c].replays == s.clients[c].replays && |s.clients[c].log| < |t.clients[c].log|
    ensures t.clients[c].log[|t.clients[c].log| - 1] == Live(row.tok, p)
  {
    var a, m := CatchUp(s, c, p);
    var b, u;
    b, u, row := Announce(m, p);
    Joined(s, a, b);
    var d, v := TakeAndOffer(u, c, p, Msg(row.tok, p));
    Joined(s, a + b, d);
    steps, t := a + b + d, v;
  }

  lemma {:induction false} TakeAndOffer(s: State, c: nat, p: string, m: Msg) returns (steps: seq<Step>, t: State)
    requires Inv(s) && Attached(s, c, p) && s.store.queue == [m] && s.hub.todo == {} && m.project == p
    ensures Exec(s, steps) == t && Untouched(s, t, c, p)
    ensures t.clients[c].log == s.clients[c].log + [Live(m.tok, p)]
  {
    NextKeepsInv(s, HubTake);
    var taken := Next(s, HubTake);
    var a, u := MakeRoom(taken, c, p);
    OfferWithRoom(u, c, c, p);
    t := Next(u, HubDeliver(c));
    var rest := Cons(u, HubDeliver(c), []);
    Joined(taken, a, rest);
    steps := Cons(s, HubTake, a + rest);
  }

  /** The next row of a replay, sent with room. */
  lemma {:induction false} SendLeft(s: State, c: nat, r: nat)
    requires c < |s.clients| && s.clients[c].closes == 0 && s.clients[c].HasRoom() && r < |s.clients[c].replays|
    requires s.clients[c].replays[r].phase.Sending? && s.clients[c].replays[r].next < |s.clients[c].replays[r].rows|
    ensures var (t, rp) := (Next(s, Peer(c, SendReplay(r))), s.clients[c].replays[r]);
            && t.store == s.store && c < |t.clients|
            && t.clients[c].log == s.clients[c].log + [Replayed(r, rp.rows[rp.next].tok)]
  {
  }

  lemma {:induction false} TailIsMisplaced(before: seq<Row>, row: Row, b: nat, log: seq<Frame>, r: nat, n: nat)
    requires b < |before| && n < |log| && log[|log| - 1] == Live(row.tok, row.project)
    ensures Misplaced(before + [row], log + [Replayed(r, before[b].tok)], r, n)
  {
    var (history, log2, i) := (before + [row], log + [Replayed(r, before[b].tok)], |log| - 1);
    assert history[|before|] == row && history[b] == before[b] && log2[i] == log[i];
    assert log2[i] == Live(history[|before|].tok, history[|before|].project) && log2[i + 1] == Replayed(r, history[b].tok);
  }

  /** A replay with a row left sends it behind a newer live one. */
  lemma {:induction false} LeftRowIsMisplaced(s: State, c: nat, r: nat, p: string) returns (steps: seq<Step>)
    requires AllOk(s) && Attached(s, c, p) && r < |s.clients[c].replays|
    requires s.clients[c].replays[r].phase.Sending? && s.clients[c].replays[r].next < |s.clients[c].replays[r].rows|
    ensures MisplacedIn(Exec(s, steps), c, r, |s.clients[c].log|)
  {
    var rp := s.clients[c].replays[r];
    assert ReplayOk(s.store.history, rp);
    var b := RowsAreHistory(s.store.history, rp, rp.next);
    var row, log;
    steps, row, log := LiveThenReplayed(s, c, r, p);
    TailIsMisplaced(s.store.history, row, b, log, r, |s.clients[c].log|);
  }

  /** First a new event live, then the replay's next row. */
  lemma {:induction false} LiveThenReplayed(s: State, c: nat, r: nat, p: string)
      returns (steps: seq<Step>, row: Row, log: seq<Frame>)
    requires Inv(s) && Attached(s, c, p) && r < |s.clients[c].replays|
    requires s.clients[c].replays[r].phase.Sending? && s.clients[c].replays[r].next < |s.clients[c].replays[r].rows|
    ensures var (t, rp) := (Exec(s, steps), s.clients[c].replays[r]);
            && t.store.history == s.store.history + [row] && c < |t.clients|
            && t.clients[c].log == log + [Replayed(r, rp.rows[rp.next].tok)]
    ensures |s.clients[c].log| < |log| && log[|log| - 1] == Live(row.tok, row.project)
  {
    var x, t, y;
    x, t, row := NewEventLive(s, c, p);
    log := t.clients[c].log;
    y := SendBehind(t, c, r, p);
    Joined(s, x, y);
    steps := x + y;
  }

  lemma {:induction false} SendBehind(s: State, c: nat, r: nat, p: string) returns (steps: seq<Step>)
    requires Inv(s) && Attached(s, c, p) && r < |s.clients[c].replays|
    requires s.clients[c].replays[r].phase.Sending? && s.clients[c].replays[r].next < |s.clients[c].replays[r].rows|
    ensures var (t, rp) := (Exec(s, steps), s.clients[c].replays[r]);
            && t.store.history == s.store.history && c < |t.clients|
            && t.clients[c].log == s.clients[c].log + [Replayed(r, rp.rows[rp.next].tok)]
  {
    var y, u := MakeRoom(s, c, p);
    SendLeft(u, c, r);
    var rest := Cons(u, Peer(c, SendReplay(r)), []);
    Joined(s, y, rest);
    steps := y + rest;
  }

  /** Every row of a replay is in the history. */
  lemma {:induction false} RowsAreHistory(history: seq<Row>, rp: Replay, k: nat) returns (b: nat)
    requires Ordered(history) && ReplayOk(history, rp) && rp.phase.Sending? && k < |rp.rows|
    ensures b < |history| && history[b] == rp.rows[k]
  {
    var table := history[rp.floor..rp.ceil];
    SelectIsExact(table, rp.project, rp.since);
    assert rp.rows[k] in table;
    var i :| 0 <= i < |table| && table[i] == rp.rows[k];
    b := rp.floor + i;
  }

  /** Every row of the table is older than this. */
  lemma {:induction false} SomeCutoff(s: Store) returns (cutoff: int)
    requires Ordered(s.history) && IsSuffix(s.events, s.history)
    ensures Retain(s.events, cutoff) == []
  {
    var h := s.history;
    cutoff := 1 + if h == [] then 0 else h[|h| - 1].createdAt;
    forall row | row in s.events
      ensures row.createdAt < cutoff
    {
      var k :| 0 <= k < |s.events| && s.events[k] == row;
      assert h[|h| - |s.events| + k] == row;
    }
    RetainNothing(s.events, cutoff);
  }

  lemma {:induction false} OneRowMatches(row: Row, since: int)
    requires row.id > since
    ensures Select([row], row.project, since) == [row]
  {
    assert [row][..0] == [] && Matching([], row.project, since) == [];
    assert [] + [row] == [row];
  }

  /** Old events are collected and a new one is appended: the table holds one event of the project behind `since`. */
  lemma {:induction false} OneRowLeft(s: State, p: string, since: int) returns (steps: seq<Step>, t: State)
    requires Inv(s)
    ensures Exec(s, steps) == t && t.clients == s.clients && t.hub == s.hub
    ensures |Select(t.store.events, p, since)| == 1
  {
    var h := s.store.history;
    var cutoff := SomeCutoff(s.store);
    var id := 1 + if h == [] || h[|h| - 1].id < since then since else h[|h| - 1].id;
    var at := if h == [] then 0 else h[|h| - 1].createdAt;
    var row := Row(id, |s.store.pubs|, p, at);
    OneRowMatches(row, since);
    AppendedAlone(s.store, cutoff, row);
    steps, t := Then(s, [], s, InStore(Gc(cutoff)));
    steps, t := Then(s, steps, t, InStore(Publish(p)));
    steps, t := Then(s, steps, t, InStore(AppendOk(row.tok, id, at)));
  }

  lemma {:induction false} AppendedAlone(s: Store, cutoff: int, row: Row)
    requires Retain(s.events, cutoff) == [] && row.tok == |s.pubs| && Follows(s.history, row.id, row.createdAt)
    ensures var a := StoreNext(StoreNext(s, Gc(cutoff)), Publish(row.project));
            StoreNext(a, AppendOk(row.tok, row.id, row.createdAt)).events == [row]
  {
    assert [] + [row] == [row];
  }

  /** The query then finds exactly that one. */
  lemma {:induction false} QueryFindsOne(s: State, c: nat, r: nat, p: string) returns (steps: seq<Step>, t: State)
    requires AllOk(s) && Attached(s, c, p) && r < |s.clients[c].replays| && s.clients[c].replays[r].phase.Querying?
    requires s.clients[c].replays[r].project == p
    ensures Exec(s, steps) == t && AllOk(t) && Attached(t, c, p) && t.clients[c].log == s.clients[c].log
    ensures r < |t.clients[c].replays|
    ensures t.clients[c].replays[r].phase.Sending? && t.clients[c].replays[r].next < |t.clients[c].replays[r].rows|
  {
    var u;
    steps, u := OneRowLeft(s, p, s.clients[c].replays[r].since);
    steps, t := Then(s, steps, u, Peer(c, Query(r, true)));
    ExecOk(s, steps);
    QueryOne(u, c, r);
  }

  lemma {:induction false} QueryOne(s: State, c: nat, r: nat)
    requires c < |s.clients| && r < |s.clients[c].replays| && s.clients[c].replays[r].phase.Querying?
    requires |Select(s.store.events, s.clients[c].replays[r].project, s.clients[c].replays[r].since)| == 1
    ensures var t := Next(s, Peer(c, Query(r, true)));
            && t.hub == s.hub && c < |t.clients| && r < |t.clients[c].replays|
            && t.clients[c].log == s.clients[c].log && t.clients[c].subs == s.clients[c].subs
            && t.clients[c].replays[r].phase.Sending? && t.clients[c].replays[r].next < |t.clients[c].replays[r].rows|
  {
  }

  /**
   For a client attached to the replay's project, no continuation enqueues a row of the replay behind a newer live
   event if and only if the replay has neither its query to make nor a row left to send.
   */
  lemma {:induction false} StaysInPlaceIff(s: State, c: nat, r: nat, p: string)
    requires AllOk(s) && Attached(s, c, p) && r < |s.clients[c].replays| && s.clients[c].replays[r].project == p
    ensures StaysInPlace(s, c, r) <==> !RowsLeft(s.clients[c].replays[r])
  {
    if RowsLeft(s.clients[c].replays[r]) {
      var steps := RowsLeftAreMisplaced(s, c, r, p);
    } else {
      forall steps: seq<Step>
        ensures !MisplacedIn(Exec(s, steps), c, r, |s.clients[c].log|)
      {
        NoRowsForGood(s, steps, c, r);
      }
    }
  }

  lemma {:induction false} RowsLeftAreMisplaced(s: State, c: nat, r: nat, p: string) returns (steps: seq<Step>)
    requires AllOk(s) && Attached(s, c, p) && r < |s.clients[c].replays| && s.clients[c].replays[r].project == p
    requires RowsLeft(s.clients[c].replays[r])
    ensures MisplacedIn(Exec(s, steps), c, r, |s.clients[c].log|)
  {
    if s.clients[c].replays[r].phase.Querying? {
      var a, t := QueryFindsOne(s, c, r, p);
      var b := LeftRowIsMisplaced(t, c, r, p);
      Joined(s, a, b);
      steps := a + b;
    } else {
      steps := LeftRowIsMisplaced(s, c, r, p);
    }
  }

  /** A run in which a client that subscribes with `since` gets an older event behind a newer one. */
  lemma {:induction false} ReplayCanFollowNewer() returns (steps: seq<Step>)
    ensures MisplacedIn(Exec(Start(), steps), 0, 0, 0)
  {
    var s;
    steps, s := OneEventOneSubscriber();
    ExecOk(Start(), steps);
    var rest := RowsLeftAreMisplaced(s, 0, 0, "p");
    Joined(Start(), steps, rest);
    steps := steps + rest;
  }
}
