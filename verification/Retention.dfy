/**
 What the events table holds after any run, and what becomes of an event whose INSERT fails: it is broadcast all the
 same, and never replayed.
 */
module Retention {
  import opened Delivery
  import opened DeliveryProofs
  import opened ReplayOrder

  // ---------- the table is what was not collected ----------

  /** Some garbage collection came after the row with a cutoff later than its timestamp. */
  predicate Collected(steps: seq<Step>, row: Row) {
    steps != [] &&
    var st, earlier := steps[|steps| - 1], steps[..|steps| - 1];
    || Collected(earlier, row)
    || (st.InStore? && st.a.Gc? && row.createdAt < st.a.cutoff && row in Exec(Start(), earlier).store.history)
  }

  lemma {:induction false} CollectedWasThere(steps: seq<Step>, row: Row)
    requires Collected(steps, row)
    ensures row in Exec(Start(), steps).store.history
  {
    var n := |steps| - 1;
    if Collected(steps[..n], row) {
      CollectedWasThere(steps[..n], row);
    }
    HistoryKeeps(Exec(Start(), steps[..n]), steps[n], row);
  }

  lemma {:induction false} HistoryKeeps(s: State, st: Step, row: Row)
    ensures row in s.store.history ==> row in Next(s, st).store.history
  {
  }

  /** An accepted append puts the writer's row at the end of history and table; the history changes in no other way. */
  lemma {:induction false} AppendInserts(s: State, st: Step)
    ensures var t := Next(s, st);
            if Appends(s, st) then
              var row := Row(st.a.id, st.a.tok, s.store.pubs[st.a.tok].project, st.a.at);
              t.store.history == s.store.history + [row] && t.store.events == s.store.events + [row]
            else t.store.history == s.store.history
  {
  }

  /** The step is an append that is accepted. */
  predicate Appends(s: State, st: Step) {
    && st.InStore? && st.a.AppendOk? && st.a.tok < |s.store.pubs| && s.store.pubs[st.a.tok].stage == Appending
    && Follows(s.store.history, st.a.id, st.a.at)
  }

  /** Neither an append nor a collection: history and table stay. */
  lemma {:induction false} OthersKeepTable(s: State, st: Step)
    requires !Appends(s, st) && !(st.InStore? && st.a.Gc?)
    ensures Next(s, st).store.history == s.store.history && Next(s, st).store.events == s.store.events
  {
  }

  lemma {:induction false} CollectionKeeps(s: State, cutoff: int, row: Row)
    ensures var t := Next(s, InStore(Gc(cutoff))).store;
            t.history == s.store.history && (row in t.events <==> row in s.store.events && row.createdAt >= cutoff)
  {
    RetainKeeps(s.store.events, cutoff, row);
  }

  /** No row is inserted twice. */
  lemma {:induction false} NewRowIsNew(history: seq<Row>, row: Row)
    requires Ordered(history) && Follows(history, row.id, row.createdAt)
    ensures row !in history
  {
    forall k | 0 <= k < |history|
      ensures history[k] != row
    {
      assert k < |history| - 1 ==> history[k].id < history[|history| - 1].id;
    }
  }

  /** After every run the table holds exactly the rows ever inserted that no later collection was due for. */
  lemma {:induction false} TableIsTheUncollected(steps: seq<Step>, row: Row)
    ensures var s := Exec(Start(), steps).store;
            row in s.events <==> row in s.history && !Collected(steps, row)
  {
    if steps != [] {
      var n := |steps| - 1;
      var m := Exec(Start(), steps[..n]);
      TableIsTheUncollected(steps[..n], row);
      if Appends(m, steps[n]) {
        RunKeepsInv(steps[..n]);
        AppendCase(steps, row);
      } else if steps[n].InStore? && steps[n].a.Gc? {
        CollectionKeeps(m, steps[n].a.cutoff, row);
      } else {
        OthersKeepTable(m, steps[n]);
      }
    }
  }

  lemma {:induction false} AppendCase(steps: seq<Step>, row: Row)
    requires steps != []
    requires var (m, st) := (Exec(Start(), steps[..|steps| - 1]), steps[|steps| - 1]);
             && Ordered(m.store.history) && Appends(m, st)
             && (row in m.store.events <==> row in m.store.history && !Collected(steps[..|steps| - 1], row))
    ensures var s := Exec(Start(), steps).store;
            row in s.events <==> row in s.history && !Collected(steps, row)
  {
    var (m, st) := (Exec(Start(), steps[..|steps| - 1]), steps[|steps| - 1]);
    var x := Row(st.a.id, st.a.tok, m.store.pubs[st.a.tok].project, st.a.at);
    AppendInserts(m, st);
    NewRowIsNew(m.store.history, x);
    if Collected(steps[..|steps| - 1], x) {
      CollectedWasThere(steps[..|steps| - 1], x);
    }
  }

  // ---------- an event whose INSERT fails ----------

  /** The writer is past its append without having a row. */
  ghost predicate Unstored(s: Store, tok: nat) {
    && tok < |s.pubs| && !s.pubs[tok].stage.Appending?
    && forall row | row in s.history :: row.tok != tok
  }

  lemma {:induction false} UnstoredStep(s: State, st: Step, tok: nat)
    requires Unstored(s.store, tok)
    ensures Unstored(Next(s, st).store, tok) && Next(s, st).store.pubs[tok].project == s.store.pubs[tok].project
  {
    AppendInserts(s, st);
  }

  /** A failed INSERT leaves the writer about to broadcast, without a row. */
  lemma {:induction false} FailedAppend(s: State, tok: nat)
    requires Inv(s) && tok < |s.store.pubs| && s.store.pubs[tok].stage == Appending
    ensures var t := Next(s, InStore(AppendFailed(tok)));
            && t.store.pubs == s.store.pubs[tok := Pub(s.store.pubs[tok].project, Broadcasting)] && Unstored(t.store, tok)
            && t.clients == s.clients && t.hub == s.hub && t.store.history == s.store.history
  {
  }

  /**
   In every run after a failed INSERT the event never gets a row, and, once its writer is done, its broadcast is among
   those sent: a failed append loses the event for replays only.
   */
  lemma {:induction false} FailedAppendIsBroadcast(s: State, tok: nat, steps: seq<Step>)
    requires Inv(s) && tok < |s.store.pubs| && s.store.pubs[tok].stage == Appending
    ensures var t := Exec(Next(s, InStore(AppendFailed(tok))), steps).store;
            && Unstored(t, tok) && t.pubs[tok].project == s.store.pubs[tok].project
            && (t.pubs[tok].stage == Sent ==> Msg(tok, t.pubs[tok].project) in t.sent)
  {
    var s1 := Next(s, InStore(AppendFailed(tok)));
    FailedAppend(s, tok);
    NextKeepsInv(s, InStore(AppendFailed(tok)));
    ExecKeepsInv(s1, steps);
    UnstoredForGood(s1, tok, steps);
  }

  lemma {:induction false} UnstoredForGood(s: State, tok: nat, steps: seq<Step>)
    requires Unstored(s.store, tok)
    ensures var t := Exec(s, steps).store; Unstored(t, tok) && t.pubs[tok].project == s.store.pubs[tok].project
  {
    if steps != [] {
      UnstoredForGood(s, tok, steps[..|steps| - 1]);
      UnstoredStep(Exec(s, steps[..|steps| - 1]), steps[|steps| - 1], tok);
    }
  }

  /** And it can always reach a client that is attached: as a live frame, with no row in the table. */
  lemma {:induction false} FailedAppendReachesClients(s: State, c: nat, p: string, tok: nat) returns (steps: seq<Step>)
    requires Inv(s) && Attached(s, c, p) && tok < |s.store.pubs| && s.store.pubs[tok] == Pub(p, Appending)
    ensures steps != [] && steps[0] == InStore(AppendFailed(tok))
    ensures var t := Exec(s, steps);
            c < |t.clients| && Live(tok, p) in t.clients[c].log && Unstored(t.store, tok)
  {
    var failed := InStore(AppendFailed(tok));
    var s1 := Next(s, failed);
    FailedAppend(s, tok);
    NextKeepsInv(s, failed);
    var a, s2 := CatchUp(s1, c, p);
    var s3 := Next(s2, InStore(Broadcast(tok)));
    NextKeepsInv(s2, InStore(Broadcast(tok)));
    var b, s4 := TakeAndOffer(s3, c, p, Msg(tok, p));
    var rest := [InStore(Broadcast(tok))] + b;
    OneThen(s2, InStore(Broadcast(tok)), b);
    Joined(s1, a, rest);
    steps := [failed] + (a + rest);
    OneThen(s, failed, a + rest);
  }

  lemma {:induction false} OneThen(s: State, st: Step, rest: seq<Step>)
    ensures Exec(s, [st] + rest) == Exec(Next(s, st), rest)
  {
    Joined(s, [st], rest);
    assert [st][..0] == [];
  }
}
