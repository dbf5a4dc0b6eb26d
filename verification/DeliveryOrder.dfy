/**
 Order and duplicates: live frames follow the order of the broadcasts, no event is enqueued twice live or twice by one
 replay, and which events are enqueued once by each.
 */
module DeliveryOrder {
  import opened Delivery
  import opened DeliveryProofs
  import opened ReplayProofs

  // ---------- every event is appended once and broadcast once ----------

  ghost predicate DistinctRows(rows: seq<Row>) {
    forall i, j :: 0 <= i < j < |rows| ==> rows[i].tok != rows[j].tok
  }

  ghost predicate DistinctMsgs(msgs: seq<Msg>) {
    forall i, j :: 0 <= i < j < |msgs| ==> msgs[i].tok != msgs[j].tok
  }

  ghost predicate Once(s: Store) {
    DistinctRows(s.history) && DistinctMsgs(s.sent)
  }

  lemma {:induction false} StoreOnce(s: Store, taken: seq<Msg>, a: StoreStep)
    requires StoreInv(s, taken) && Once(s)
    ensures Once(StoreNext(s, a))
  {
    var t := StoreNext(s, a);
    if t.history != s.history {
      assert forall i :: 0 <= i < |s.history| ==> s.history[i] in s.history && s.history[i].tok != a.tok;
    }
    if t.sent != s.sent {
      assert forall i :: 0 <= i < |s.sent| ==> s.sent[i] in s.sent && s.sent[i].tok != a.tok;
    }
  }

  // ---------- live frames follow the broadcasts ----------

  /** The live frames of a project are, in order, broadcasts of the project offered so far. */
  ghost predicate LiveInOrder(hub: Hub, c: nat, log: seq<Frame>, p: string) {
    IsSubsequence(LiveOn(log, p), OnProject(Seen(hub, c), p))
  }

  lemma {:induction false} OfferInOrder(seen: seq<Msg>, m: Msg, log: seq<Frame>, log2: seq<Frame>, p: string)
    requires IsSubsequence(LiveOn(log, p), OnProject(seen, p))
    requires log2 == log || log2 == log + [Live(m.tok, m.project)]
    ensures IsSubsequence(LiveOn(log2, p), OnProject(seen + [m], p))
  {
    OnProjectSnoc(seen, m, p);
    LiveSnoc(log, Live(m.tok, m.project), p);
    if m.project == p {
      SubsequenceGrows(LiveOn(log, p), OnProject(seen, p), m.tok);
    } else {
      assert OnProject(seen, p) + [] == OnProject(seen, p) && LiveOn(log, p) + [] == LiveOn(log, p);
    }
  }

  /** What a client has been offered grows by at most the broadcast being offered. */
  lemma {:induction false} SeenGrows(s: State, st: Step, c: nat)
    requires Inv(s)
    ensures var (before, after) := (Seen(s.hub, c), Seen(Next(s, st).hub, c));
            after == before || (|after| == |before| + 1 && before == after[..|before|])
  {
    var t := Next(s, st);
    if st.HubDeliver? && c in s.hub.todo && c !in t.hub.todo {
      assert t.hub.taken == t.hub.taken[..|t.hub.taken| - 1] + [t.hub.taken[|t.hub.taken| - 1]];
    }
  }

  /** A step enqueues at most one frame, and a live one only when it offers it. */
  ghost predicate LogStep(log: seq<Frame>, log2: seq<Frame>, seen: seq<Msg>, seen2: seq<Msg>) {
    || (seen2 == seen && log2 == log)
    || (seen2 == seen && |log2| == |log| + 1 && log == log2[..|log|] && !log2[|log|].Live?)
    || (&& |seen2| == |seen| + 1 && seen == seen2[..|seen|]
        && (log2 == log || log2 == log + [Live(seen2[|seen|].tok, seen2[|seen|].project)]))
  }

  lemma {:induction false} NextLogStep(s: State, st: Step, c: nat)
    requires Inv(s) && c < |s.clients|
    ensures var t := Next(s, st);
            c < |t.clients| && LogStep(s.clients[c].log, t.clients[c].log, Seen(s.hub, c), Seen(t.hub, c))
  {
    SeenGrows(s, st, c);
    if st.Peer? && st.c == c {
      PeerFrame(s.store, c in s.hub.registered, s.clients[c], st.p);
    } else if st == HubDeliver(c) && c in s.hub.todo {
      var n := |s.hub.taken| - 1;
      assert s.hub.taken == s.hub.taken[..n] + [s.hub.taken[n]];
    }
  }

  lemma {:induction false} LogStepInOrder(log: seq<Frame>, log2: seq<Frame>, seen: seq<Msg>, seen2: seq<Msg>, p: string)
    requires LogStep(log, log2, seen, seen2) && IsSubsequence(LiveOn(log, p), OnProject(seen, p))
    ensures IsSubsequence(LiveOn(log2, p), OnProject(seen2, p))
  {
    if |seen2| == |seen| + 1 {
      assert seen2 == seen + [seen2[|seen|]];
      OfferInOrder(seen, seen2[|seen|], log, log2, p);
    } else if |log2| == |log| + 1 {
      assert log2 == log + [log2[|log|]];
      LiveSnoc(log, log2[|log|], p);
      assert LiveOn(log, p) + [] == LiveOn(log, p);
    }
  }

  lemma {:induction false} NextInOrder(s: State, st: Step, c: nat, p: string)
    requires Inv(s) && c < |s.clients| && LiveInOrder(s.hub, c, s.clients[c].log, p)
    ensures var t := Next(s, st); c < |t.clients| && LiveInOrder(t.hub, c, t.clients[c].log, p)
  {
    NextLogStep(s, st, c);
    LogStepInOrder(s.clients[c].log, Next(s, st).clients[c].log, Seen(s.hub, c), Seen(Next(s, st).hub, c), p);
  }

  ghost predicate InOrder(s: State, p: string) {
    && Inv(s) && Once(s.store)
    && forall c :: 0 <= c < |s.clients| ==> LiveInOrder(s.hub, c, s.clients[c].log, p)
  }

  /** Appends and broadcasts happen in the store only. */
  lemma {:induction false} NextOnce(s: State, st: Step)
    requires Inv(s) && Once(s.store)
    ensures Once(Next(s, st).store)
  {
    if st.InStore? {
      StoreOnce(s.store, s.hub.taken, st.a);
    }
  }

  lemma {:induction false} StepInOrder(s: State, st: Step, p: string)
    requires InOrder(s, p)
    ensures InOrder(Next(s, st), p)
  {
    var t := Next(s, st);
    NextKeepsInv(s, st);
    NextOnce(s, st);
    assert forall c :: |s.clients| <= c < |t.clients| ==> t.clients[c].log == [];
    forall c | 0 <= c < |t.clients|
      ensures LiveInOrder(t.hub, c, t.clients[c].log, p)
    {
      if c < |s.clients| {
        NextInOrder(s, st, c, p);
      }
    }
  }

  lemma {:induction false} ExecInOrder(s: State, steps: seq<Step>, p: string)
    requires InOrder(s, p)
    ensures InOrder(Exec(s, steps), p)
  {
    if steps != [] {
      var n := |steps| - 1;
      ExecInOrder(s, steps[..n], p);
      StepInOrder(Exec(s, steps[..n]), steps[n], p);
    }
  }

  // ---------- at most once ----------

  lemma {:induction false} SubsequenceHas(a: seq<nat>, b: seq<nat>, x: nat)
    requires IsSubsequence(a, b) && x in a
    ensures x in b
  {
    var m, n := |a| - 1, |b| - 1;
    assert a == a[..m] + [a[m]] && b == b[..n] + [b[n]];
    if a[m] == b[n] && IsSubsequence(a[..m], b[..n]) {
      if x != a[m] {
        SubsequenceHas(a[..m], b[..n], x);
      }
    } else {
      SubsequenceHas(a, b[..n], x);
    }
  }

  lemma {:induction false} SubsequenceOnce(a: seq<nat>, b: seq<nat>)
    requires IsSubsequence(a, b) && NoRepeats(b)
    ensures NoRepeats(a)
  {
    if a != [] {
      var m, n := |a| - 1, |b| - 1;
      if a[m] == b[n] && IsSubsequence(a[..m], b[..n]) {
        SubsequenceOnce(a[..m], b[..n]);
        forall i | 0 <= i < m
          ensures a[i] != a[m]
        {
          SubsequenceHas(a[..m], b[..n], a[..m][i]);
        }
      } else {
        SubsequenceOnce(a, b[..n]);
      }
    }
  }

  lemma {:induction false} OnProjectHas(msgs: seq<Msg>, p: string, tok: nat)
    ensures tok in OnProject(msgs, p) <==> Msg(tok, p) in msgs
  {
    if msgs != [] {
      var n := |msgs| - 1;
      OnProjectHas(msgs[..n], p, tok);
      assert msgs == msgs[..n] + [msgs[n]];
    }
  }

  lemma {:induction false} OnProjectOnce(msgs: seq<Msg>, p: string)
    requires DistinctMsgs(msgs)
    ensures NoRepeats(OnProject(msgs, p))
  {
    if msgs != [] {
      var n := |msgs| - 1;
      OnProjectOnce(msgs[..n], p);
      OnProjectHas(msgs[..n], p, msgs[n].tok);
    }
  }

  lemma {:induction false} TokensHas(rows: seq<Row>, n: nat, tok: nat)
    requires n <= |rows|
    ensures tok in Tokens(rows, n) <==> exists k :: 0 <= k < n && rows[k].tok == tok
  {
    if n > 0 {
      TokensHas(rows, n - 1, tok);
    }
  }

  lemma {:induction false} TokensOnce(rows: seq<Row>, n: nat)
    requires n <= |rows| && DistinctRows(rows)
    ensures NoRepeats(Tokens(rows, n))
  {
    if n > 0 {
      TokensOnce(rows, n - 1);
      TokensHas(rows, n - 1, rows[n - 1].tok);
    }
  }

  /** Rows in ascending order that all come from the history have different tokens. */
  lemma {:induction false} SelectedOnce(history: seq<Row>, rows: seq<Row>)
    requires DistinctRows(history) && Ordered(rows) && forall row | row in rows :: row in history
    ensures DistinctRows(rows)
  {
    forall i, j | 0 <= i < j < |rows|
      ensures rows[i].tok != rows[j].tok
    {
      assert rows[i] in history && rows[j] in history;
      var a :| 0 <= a < |history| && history[a] == rows[i];
      var b :| 0 <= b < |history| && history[b] == rows[j];
      assert a != b;
    }
  }

  lemma {:induction false} ReplayRowsOnce(history: seq<Row>, rp: Replay)
    requires Ordered(history) && DistinctRows(history) && ReplayOk(history, rp)
    requires !rp.phase.Querying? && !rp.phase.Failed?
    ensures DistinctRows(rp.rows) && Ordered(rp.rows)
    ensures forall row | row in rp.rows :: row in history[rp.floor..rp.ceil]
  {
    var table := history[rp.floor..rp.ceil];
    SelectIsExact(table, rp.project, rp.since);
    SelectedOnce(history, rp.rows);
  }

  lemma {:induction false} OnProjectPrefix(a: seq<nat>, seen: seq<Msg>, more: seq<Msg>, p: string)
    requires IsSubsequence(a, OnProject(seen, p))
    ensures IsSubsequence(a, OnProject(seen + more, p))
  {
    if more == [] {
      assert seen + more == seen;
    } else {
      var n := |more| - 1;
      OnProjectPrefix(a, seen, more[..n], p);
      assert seen + more == (seen + more[..n]) + [more[n]];
      OnProjectSnoc(seen + more[..n], more[n], p);
      SubsequenceGrows(a, OnProject(seen + more[..n], p), more[n].tok);
      assert OnProject(seen + more[..n], p) + [] == OnProject(seen + more[..n], p);
    }
  }

  /** A replay's frames name different events. */
  lemma {:induction false} ReplayedOnce(s: State, c: nat, r: nat)
    requires AllOk(s) && Once(s.store) && c < |s.clients| && r < |s.clients[c].replays|
    ensures NoRepeats(ReplayedBy(s.clients[c].log, r))
  {
    var rp := s.clients[c].replays[r];
    assert ReplayOk(s.store.history, rp) && FramesOk(s.clients[c], r);
    if rp.phase.Querying? || rp.phase.Failed? {
      SubsequenceOnce(ReplayedBy(s.clients[c].log, r), []);
    } else {
      ReplayRowsOnce(s.store.history, rp);
      TokensOnce(rp.rows, rp.next);
      SubsequenceOnce(ReplayedBy(s.clients[c].log, r), Tokens(rp.rows, rp.next));
    }
  }

  /**
   In every run, whatever subscriptions come and go: the live frames of a project are a subsequence of its broadcasts
   in the order in which writers sent them, no event among them twice, and no replay enqueues an event twice.
   */
  lemma {:induction false} EnqueuedAtMostOnce(steps: seq<Step>, c: nat, p: string)
    requires c < |Exec(Start(), steps).clients|
    ensures var (sent, d) := (Exec(Start(), steps).store.sent, Exec(Start(), steps).clients[c]);
            && IsSubsequence(LiveOn(d.log, p), OnProject(sent, p)) && NoRepeats(LiveOn(d.log, p))
            && forall r :: 0 <= r < |d.replays| ==> NoRepeats(ReplayedBy(d.log, r))
  {
    var s := Exec(Start(), steps);
    StartInOrder(p);
    ExecInOrder(Start(), steps, p);
    ExecOk(Start(), steps);
    LiveOnce(s, c, p);
    AllReplayedOnce(s, c);
  }

  lemma {:induction false} StartInOrder(p: string)
    ensures InOrder(Start(), p)
  {
    StartKeepsInv();
  }

  lemma {:induction false} AllReplayedOnce(s: State, c: nat)
    requires AllOk(s) && Once(s.store) && c < |s.clients|
    ensures forall r :: 0 <= r < |s.clients[c].replays| ==> NoRepeats(ReplayedBy(s.clients[c].log, r))
  {
    forall r | 0 <= r < |s.clients[c].replays|
      ensures NoRepeats(ReplayedBy(s.clients[c].log, r))
    {
      ReplayedOnce(s, c, r);
    }
  }

  lemma {:induction false} LiveOnce(s: State, c: nat, p: string)
    requires InOrder(s, p) && c < |s.clients|
    ensures IsSubsequence(LiveOn(s.clients[c].log, p), OnProject(s.store.sent, p)) && NoRepeats(LiveOn(s.clients[c].log, p))
  {
    SeenIsSent(s, c);
    var (seen, sent, live) := (Seen(s.hub, c), s.store.sent, LiveOn(s.clients[c].log, p));
    assert sent == seen + sent[|seen|..];
    OnProjectPrefix(live, seen, sent[|seen|..], p);
    OnProjectOnce(sent, p);
    SubsequenceOnce(live, OnProject(sent, p));
  }

  // ---------- exactly which events come twice ----------

  lemma {:induction false} LiveOnHas(log: seq<Frame>, p: string, tok: nat)
    ensures tok in LiveOn(log, p) <==> Live(tok, p) in log
  {
    if log != [] {
      var n := |log| - 1;
      LiveOnHas(log[..n], p, tok);
      assert log == log[..n] + [log[n]];
    }
  }

  lemma {:induction false} ReplayedByHas(log: seq<Frame>, r: nat, tok: nat)
    ensures tok in ReplayedBy(log, r) <==> Replayed(r, tok) in log
  {
    if log != [] {
      var n := |log| - 1;
      ReplayedByHas(log[..n], r, tok);
      assert log == log[..n] + [log[n]];
    }
  }

  lemma {:induction false} NewlySeen(before: seq<Msg>, after: seq<Msg>, m: Msg)
    requires before <= after && DistinctMsgs(after)
    ensures m in after[|before|..] <==> m in after && m !in before
  {
    assert after == before + after[|before|..];
    var rest := after[|before|..];
    if m in rest {
      var j :| 0 <= j < |rest| && rest[j] == m;
      forall i | 0 <= i < |before|
        ensures before[i] != m
      {
        assert after[i].tok != after[|before| + j].tok;
      }
    }
  }

  /** While attached, a client is sent live exactly what is offered to it. */
  lemma {:induction false} LiveIff(s: State, steps: seq<Step>, c: nat, p: string, tok: nat)
    requires Inv(s) && Once(s.store) && Kept(s, steps, c, p)
    ensures var t := Exec(s, steps);
            && Attached(s, c, p) && Attached(t, c, p)
            && (Live(tok, p) in t.clients[c].log <==>
                  || Live(tok, p) in s.clients[c].log
                  || (Msg(tok, p) in Seen(t.hub, c) && Msg(tok, p) !in Seen(s.hub, c)))
  {
    LiveDeliveryFollowsOffers(s, steps, c, p);
    ExecOnce(s, steps);
    ExecKeepsInv(s, steps);
    var t := Exec(s, steps);
    var (before, after) := (Seen(s.hub, c), Seen(t.hub, c));
    SeenIsSent(t, c);
    NewlySeen(before, after, Msg(tok, p));
    LiveOnHas(s.clients[c].log, p, tok);
    LiveOnHas(t.clients[c].log, p, tok);
    OnProjectHas(after[|before|..], p, tok);
  }

  lemma {:induction false} ExecOnce(s: State, steps: seq<Step>)
    requires Inv(s) && Once(s.store)
    ensures Once(Exec(s, steps).store)
  {
    if steps != [] {
      ExecOnce(s, steps[..|steps| - 1]);
      ExecKeepsInv(s, steps[..|steps| - 1]);
      NextOnce(Exec(s, steps[..|steps| - 1]), steps[|steps| - 1]);
    }
  }

  /** Of a history, a query that is not cut off finds exactly the project's rows behind `since` in its range. */
  lemma {:induction false} FoundIff(history: seq<Row>, rp: Replay, k: nat)
    requires Ordered(history) && DistinctRows(history) && k < |history| && ReplayOk(history, rp)
    requires rp.phase.Ended? && |rp.rows| < MAX_REPLAY && history[k].project == rp.project
    ensures (exists j :: 0 <= j < |rp.rows| && rp.rows[j].tok == history[k].tok) <==>
              rp.floor <= k < rp.ceil && history[k].id > rp.since
  {
    var table := history[rp.floor..rp.ceil];
    SelectIsExact(table, rp.project, rp.since);
    if rp.floor <= k < rp.ceil && history[k].id > rp.since {
      assert table[k - rp.floor] == history[k];
      assert history[k] in rp.rows;
    }
    if j :| 0 <= j < |rp.rows| && rp.rows[j].tok == history[k].tok {
      assert rp.rows[j] in rp.rows;
      SameToken(history, rp.floor, rp.ceil, rp.rows[j], k);
    }
  }

  lemma {:induction false} SameToken(history: seq<Row>, floor: nat, ceil: nat, row: Row, k: nat)
    requires DistinctRows(history) && k < |history| && floor <= ceil <= |history|
    requires row in history[floor..ceil] && row.tok == history[k].tok
    ensures floor <= k < ceil && row == history[k]
  {
    var i :| 0 <= i < ceil - floor && history[floor..ceil][i] == row;
    assert history[floor + i] == row;
  }

  /** A replay that has ended without drops and without a resync has enqueued exactly the rows its query had to find. */
  lemma {:induction false} ReplayedIff(history: seq<Row>, c: Client, r: nat, k: nat)
    requires Ordered(history) && DistinctRows(history) && r < |c.replays| && k < |history|
    requires ReplayOk(history, c.replays[r]) && Complete(c, r)
    requires c.replays[r].phase.Ended? && |c.replays[r].rows| < MAX_REPLAY && history[k].project == c.replays[r].project
    ensures var rp := c.replays[r];
            Replayed(r, history[k].tok) in c.log <==> rp.floor <= k < rp.ceil && history[k].id > rp.since
  {
    var (rp, tok) := (c.replays[r], history[k].tok);
    ReplayedByHas(c.log, r, tok);
    TokensHas(rp.rows, |rp.rows|, tok);
    FoundIff(history, rp, k);
  }

  /**
   Take a client as in ReconnectLeavesNoGap whose replay has ended without a resync. An event of the project is
   enqueued both by the replay and live if and only if it was in the table at the query, with an id behind `since`,
   and it had been sent live already, or its broadcast was offered between the subscription and now. So an event
   comes twice exactly when its writer's append precedes the query and its broadcast follows the subscription.
   */
  lemma {:induction false} EnqueuedTwiceIff(s: State, steps: seq<Step>, c: nat, r: nat, k: nat)
    requires AllOk(s) && Once(s.store) && c < |s.clients| && r < |s.clients[c].replays|
    requires s.clients[c].replays[r].phase.Querying?
    requires Kept(s, steps, c, s.clients[c].replays[r].project) && AlwaysRoomy(s, steps, c, r)
    requires var t := Exec(s, steps);
             && k < |t.store.history| && c < |t.clients| && r < |t.clients[c].replays|
             && t.clients[c].replays[r].phase.Ended? && |t.clients[c].replays[r].rows| < MAX_REPLAY
             && t.clients[c].replays[r].project == s.clients[c].replays[r].project == t.store.history[k].project
    ensures var t := Exec(s, steps);
            var (d, rp, row) := (t.clients[c], t.clients[c].replays[r], t.store.history[k]);
            var m := Msg(row.tok, row.project);
            (Replayed(r, row.tok) in d.log && Live(row.tok, row.project) in d.log) <==>
              && rp.floor <= k < rp.ceil && row.id > rp.since
              && (Live(row.tok, row.project) in s.clients[c].log || (m in Seen(t.hub, c) && m !in Seen(s.hub, c)))
  {
    var t := Exec(s, steps);
    ExecOk(s, steps);
    ExecOnce(s, steps);
    RoomyReplayIsComplete(s, steps, c, r);
    assert ReplayOk(t.store.history, t.clients[c].replays[r]);
    ReplayedIff(t.store.history, t.clients[c], r, k);
    LiveIff(s, steps, c, t.store.history[k].project, t.store.history[k].tok);
  }
}
