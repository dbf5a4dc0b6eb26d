/**
 When the event table rebuilds the index although requests overlap. Events are appended in the order in which their
 requests get that far, which need not be the order of the commits.
 */
module EventOrder {
  import opened Common
  import opened Resources
  import opened WriteProtocol
  import opened Linearizability
  import opened Rebuild

  /** The request is between its commit and the append of its event. */
  predicate Pends(p: Proc) {
    p.stage.Sweep? || p.stage.Audit? || p.stage.Append?
  }

  ghost predicate PendsOn(s: Sys, i: int, row: RowKey) {
    0 <= i < |s.procs| && Pends(s.procs[i]) && s.procs[i].row == row
  }

  /** Nobody is between commit and append on this row. */
  ghost predicate Quiet(s: Sys, row: RowKey) {
    forall i :: 0 <= i < |s.procs| ==> !PendsOn(s, i, row)
  }

  /** What a reader of the event table takes the row's etag to be, against what it is. */
  ghost predicate Told(files: Files, s: Sys, row: RowKey) {
    LastEtag(files, s.db.events, row) == Get(s.db.files, row)
  }

  /** The statement is a conditional write that takes effect. */
  predicate Grants(db: Db, p: Proc, ok: bool) {
    p.stage.Commit? && ok && p.req.Condition().Holds(Get(db.files, p.row))
  }

  /** One statement commits and then pends, or appends and no longer does, or touches neither index nor events. */
  ghost predicate Moves(h: Hash, ok: bool, db: Db, p: Proc, db2: Db, p2: Proc) {
    && (p2.req, p2.row) == (p.req, p.row)
    && if Grants(db, p, ok) then
         !Pends(p) && Pends(p2) && db2.files == Store(db.files, p.row, p.req.NewEtag(h)) && db2.events == db.events
       else if p.stage.Append? then
         !Pends(p2) && db2.files == db.files && db2.events == db.events + if ok then [EventOf(h, p.req)] else []
       else
         Pends(p2) == Pends(p) && db2.files == db.files && db2.events == db.events
  }

  lemma {:induction false} StepMoves(h: Hash, db: Db, rid: nat, p: Proc, ok: bool)
    requires !p.stage.Finished?
    ensures var (db2, p2) := StepProc(h, db, rid, p, ok);
            Moves(h, ok, db, p, db2, p2)
  {
  }

  lemma {:induction false} LastEtagSnoc(files: Files, events: seq<Event>, e: Event, row: RowKey)
    ensures LastEtag(files, events + [e], row) == if Row(e.res) == row then e.etag else LastEtag(files, events, row)
  {
    assert (events + [e])[..|events|] == events;
  }

  predicate Live(s: Sys, st: Step) {
    st.Run? && st.rid < |s.procs| && !s.procs[st.rid].stage.Finished?
  }

  // ---------- disciplined runs ----------

  /** On this row no append fails, and nobody commits while another request is between commit and append. */
  ghost predicate Tidy(s: Sys, st: Step, row: RowKey) {
    Live(s, st) && s.procs[st.rid].row == row ==>
      && (s.procs[st.rid].stage.Append? ==> st.ok)
      && (Grants(s.db, s.procs[st.rid], st.ok) ==> Quiet(s, row))
  }

  ghost predicate TidyRun(h: Hash, s: Sys, steps: seq<Step>, row: RowKey) {
    steps == [] ||
    var n := |steps| - 1;
    TidyRun(h, s, steps[..n], row) && Tidy(Exec(h, s, steps[..n]), steps[n], row)
  }

  /** At most one request pends on the row and the row is what it wrote; if none does, the events tell the row. */
  ghost predicate InTurn(h: Hash, files: Files, s: Sys, row: RowKey) {
    && (forall i, j :: PendsOn(s, i, row) && PendsOn(s, j, row) ==> i == j)
    && (forall i :: PendsOn(s, i, row) ==> Get(s.db.files, row) == s.procs[i].req.NewEtag(h))
    && (Quiet(s, row) ==> Told(files, s, row))
  }

  /** A commit on a quiet row: the request that commits is the one that pends, and the row is what it wrote. */
  lemma {:induction false} CommitInTurn(
    h: Hash, files: Files, s: Sys, i: nat, ok: bool, db2: Db, p2: Proc, row: RowKey)
    requires Quiet(s, row) && i < |s.procs| && Moves(h, ok, s.db, s.procs[i], db2, p2)
    requires s.procs[i].row == row && Grants(s.db, s.procs[i], ok)
    ensures InTurn(h, files, Sys(db2, s.procs[i := p2]), row)
  {
    var t := Sys(db2, s.procs[i := p2]);
    assert PendsOn(t, i, row);
    forall j | PendsOn(t, j, row)
      ensures j == i
    {
      assert j != i ==> PendsOn(s, j, row);
    }
  }

  /** An append by the one request that pends. */
  lemma {:induction false} AppendInTurn(h: Hash, files: Files, s: Sys, i: nat, db2: Db, p2: Proc, row: RowKey)
    requires InTurn(h, files, s, row) && i < |s.procs| && Moves(h, true, s.db, s.procs[i], db2, p2)
    requires s.procs[i].row == row == Row(s.procs[i].req.res) && s.procs[i].stage.Append?
    ensures InTurn(h, files, Sys(db2, s.procs[i := p2]), row)
  {
    var t := Sys(db2, s.procs[i := p2]);
    LastEtagSnoc(files, s.db.events, EventOf(h, s.procs[i].req), row);
    assert PendsOn(s, i, row) && !PendsOn(t, i, row);
    forall j
      ensures !PendsOn(t, j, row)
    {
      assert PendsOn(t, j, row) ==> j != i && PendsOn(s, j, row);
    }
  }

  /** Any other statement leaves who pends on the row, the row and what is told of it as they were. */
  lemma {:induction false} OtherInTurn(
    h: Hash, files: Files, s: Sys, i: nat, ok: bool, db2: Db, p2: Proc, row: RowKey)
    requires InTurn(h, files, s, row) && i < |s.procs| && Moves(h, ok, s.db, s.procs[i], db2, p2)
    requires s.procs[i].row == Row(s.procs[i].req.res)
    requires s.procs[i].row == row ==> !s.procs[i].stage.Append? && !Grants(s.db, s.procs[i], ok)
    ensures InTurn(h, files, Sys(db2, s.procs[i := p2]), row)
  {
    var t := Sys(db2, s.procs[i := p2]);
    LastEtagSnoc(files, s.db.events, EventOf(h, s.procs[i].req), row);
    assert s.db.events + [] == s.db.events;
    assert forall j :: PendsOn(t, j, row) <==> PendsOn(s, j, row);
    assert Quiet(t, row) ==> Quiet(s, row);
  }

  lemma {:induction false} MovesInTurn(
    h: Hash, files: Files, s: Sys, i: nat, ok: bool, db2: Db, p2: Proc, row: RowKey)
    requires InTurn(h, files, s, row) && i < |s.procs| && Moves(h, ok, s.db, s.procs[i], db2, p2)
    requires s.procs[i].row == Row(s.procs[i].req.res)
    requires s.procs[i].row == row ==> (s.procs[i].stage.Append? ==> ok) && (Grants(s.db, s.procs[i], ok) ==> Quiet(s, row))
    ensures InTurn(h, files, Sys(db2, s.procs[i := p2]), row)
  {
    if s.procs[i].row == row && Grants(s.db, s.procs[i], ok) {
      CommitInTurn(h, files, s, i, ok, db2, p2, row);
    } else if s.procs[i].row == row && s.procs[i].stage.Append? {
      AppendInTurn(h, files, s, i, db2, p2, row);
    } else {
      OtherInTurn(h, files, s, i, ok, db2, p2, row);
    }
  }

  lemma {:induction false} NextInTurn(h: Hash, files: Files, s: Sys, st: Step, row: RowKey)
    requires Placed(s) && InTurn(h, files, s, row) && Tidy(s, st, row)
    ensures InTurn(h, files, Next(h, s, st), row)
  {
    if Live(s, st) {
      StepMoves(h, s.db, st.rid, s.procs[st.rid], st.ok);
      var (db2, p2) := StepProc(h, s.db, st.rid, s.procs[st.rid], st.ok);
      MovesInTurn(h, files, s, st.rid, st.ok, db2, p2, row);
    } else {
      var t := Next(h, s, st);
      assert forall i :: PendsOn(t, i, row) <==> PendsOn(s, i, row);
    }
  }

  lemma {:induction false} TidyRunsTell(h: Hash, files: Files, objects: map<string, Bytes>, steps: seq<Step>, row: RowKey)
    requires TidyRun(h, Start(files, objects), steps, row)
    ensures InTurn(h, files, Exec(h, Start(files, objects), steps), row)
  {
    var s0 := Start(files, objects);
    if steps == [] {
      assert LastEtag(files, s0.db.events, row) == Get(files, row);
    } else {
      var n := |steps| - 1;
      TidyRunsTell(h, files, objects, steps[..n], row);
      ExecKeepsInv(h, files, s0, steps[..n]);
      ExecPlaced(h, files, s0, steps[..n]);
      NextInTurn(h, files, Exec(h, s0, steps[..n]), steps[n], row);
    }
  }

  /**
   For every interleaving: if on every row no append fails and requests do not commit into the gap between another
   one's commit and append, then, once nobody is in that gap, the event table folds to exactly the index.
   */
  lemma {:induction false} TidyRunsRebuildIndex(h: Hash, files: Files, objects: map<string, Bytes>, steps: seq<Step>)
    requires forall row :: TidyRun(h, Start(files, objects), steps, row)
    requires forall row :: Quiet(Exec(h, Start(files, objects), steps), row)
    ensures var db := Exec(h, Start(files, objects), steps).db;
            FoldEvents(files, db.events) == db.files
  {
    var s := Exec(h, Start(files, objects), steps);
    assert forall row :: Quiet(s, row);
    forall row
      ensures Get(FoldEvents(files, s.db.events), row) == Get(s.db.files, row)
    {
      TidyRunsTell(h, files, objects, steps, row);
      FoldGivesLastEtag(files, s.db.events, row);
    }
    SameLookups(FoldEvents(files, s.db.events), s.db.files);
  }

  // ---------- when the events catch up with the row ----------

  /** On this row no append fails and nobody commits. */
  ghost predicate Settling(h: Hash, s: Sys, steps: seq<Step>, row: RowKey) {
    steps == [] ||
    var n := |steps| - 1;
    Settling(h, s, steps[..n], row) && SettlingStep(Exec(h, s, steps[..n]), steps[n], row)
  }

  ghost predicate SettlingStep(s: Sys, st: Step, row: RowKey) {
    Live(s, st) && s.procs[st.rid].row == row ==>
      (s.procs[st.rid].stage.Append? ==> st.ok) && !Grants(s.db, s.procs[st.rid], st.ok)
  }

  /** However the run goes on without another commit on the row, once its events are appended they tell the row. */
  ghost predicate AlwaysCatchesUp(h: Hash, files: Files, s: Sys, row: RowKey) {
    forall steps :: Settling(h, s, steps, row) && Quiet(Exec(h, s, steps), row) ==> Told(files, Exec(h, s, steps), row)
  }

  /** Every request that still owes its event on the row wrote the etag the row has; or none does and the events tell it. */
  ghost predicate InStep(h: Hash, files: Files, s: Sys, row: RowKey) {
    && (forall i :: PendsOn(s, i, row) ==> s.procs[i].req.NewEtag(h) == Get(s.db.files, row))
    && (Quiet(s, row) ==> Told(files, s, row))
  }

  lemma {:induction false} MovesInStep(
    h: Hash, files: Files, s: Sys, i: nat, ok: bool, db2: Db, p2: Proc, row: RowKey)
    requires InStep(h, files, s, row) && i < |s.procs| && Moves(h, ok, s.db, s.procs[i], db2, p2)
    requires s.procs[i].row == Row(s.procs[i].req.res)
    requires s.procs[i].row == row ==> (s.procs[i].stage.Append? ==> ok) && !Grants(s.db, s.procs[i], ok)
    ensures InStep(h, files, Sys(db2, s.procs[i := p2]), row)
  {
    var t := Sys(db2, s.procs[i := p2]);
    LastEtagSnoc(files, s.db.events, EventOf(h, s.procs[i].req), row);
    assert forall j :: j != i ==> (PendsOn(t, j, row) <==> PendsOn(s, j, row));
    assert s.db.events + [] == s.db.events;
    if s.procs[i].row == row && s.procs[i].stage.Append? {
      assert PendsOn(s, i, row);
    } else {
      assert PendsOn(t, i, row) <==> PendsOn(s, i, row);
      assert Quiet(t, row) ==> Quiet(s, row);
    }
  }

  lemma {:induction false} SettlingKeepsInStep(h: Hash, files: Files, s: Sys, steps: seq<Step>, row: RowKey)
    requires Inv(h, files, s) && Placed(s) && InStep(h, files, s, row) && Settling(h, s, steps, row)
    ensures InStep(h, files, Exec(h, s, steps), row)
  {
    if steps != [] {
      var n := |steps| - 1;
      SettlingKeepsInStep(h, files, s, steps[..n], row);
      ExecPlaced(h, files, s, steps[..n]);
      NextInStep(h, files, Exec(h, s, steps[..n]), steps[n], row);
    }
  }

  lemma {:induction false} NextInStep(h: Hash, files: Files, s: Sys, st: Step, row: RowKey)
    requires Placed(s) && InStep(h, files, s, row) && SettlingStep(s, st, row)
    ensures InStep(h, files, Next(h, s, st), row)
  {
    if Live(s, st) {
      StepMoves(h, s.db, st.rid, s.procs[st.rid], st.ok);
      var (db2, p2) := StepProc(h, s.db, st.rid, s.procs[st.rid], st.ok);
      MovesInStep(h, files, s, st.rid, st.ok, db2, p2, row);
    } else {
      var t := Next(h, s, st);
      assert forall i :: PendsOn(t, i, row) <==> PendsOn(s, i, row);
    }
  }

  /** The steps are statements of requests already there, none of which fails. */
  predicate AllRunWell(steps: seq<Step>) {
    forall k :: 0 <= k < |steps| ==> steps[k].Run? && steps[k].ok
  }

  lemma {:induction false} SettlingSplit(h: Hash, s: Sys, a: seq<Step>, b: seq<Step>, row: RowKey)
    requires Settling(h, s, a, row) && Settling(h, Exec(h, s, a), b, row)
    ensures Settling(h, s, a + b, row)
  {
    if b == [] {
      assert a + b == a;
    } else {
      var n := |b| - 1;
      SettlingSplit(h, s, a, b[..n], row);
      ExecSplit(h, s, a, b[..n]);
      assert (a + b)[..|a| + n] == a + b[..n];
    }
  }

  lemma {:induction false} OneSettlingStep(h: Hash, s: Sys, st: Step, row: RowKey)
    requires SettlingStep(s, st, row)
    ensures Settling(h, s, [st], row)
  {
    assert [st][..0] == [] && Exec(h, s, []) == s && Settling(h, s, [], row);
  }

  /** Nothing happens but that request `i` appends its event. */
  lemma {:induction false} Finish(h: Hash, s: Sys, i: nat, row: RowKey) returns (steps: seq<Step>)
    requires PendsOn(s, i, row)
    ensures Settling(h, s, steps, row) && AllRunWell(steps)
    ensures var t := Exec(h, s, steps);
            && t.db.files == s.db.files && t.db.events == s.db.events + [EventOf(h, s.procs[i].req)]
            && |t.procs| == |s.procs| && !Pends(t.procs[i])
            && forall j :: 0 <= j < |s.procs| && j != i ==> t.procs[j] == s.procs[j]
    decreases if s.procs[i].stage.Sweep? then 2 else if s.procs[i].stage.Audit? then 1 else 0
  {
    var st := Run(i, true);
    var t := Next(h, s, st);
    ExecSnoc(h, s, [], st);
    assert [] + [st] == [st];
    OneSettlingStep(h, s, st, row);
    if s.procs[i].stage.Append? {
      steps := [st];
    } else {
      var rest := Finish(h, t, i, row);
      steps := [st] + rest;
      ExecSplit(h, s, [st], rest);
      SettlingSplit(h, s, [st], rest, row);
    }
  }

  /** The first `n` requests on the row, `last` apart, append their events. */
  lemma {:induction false} FinishOthers(h: Hash, s: Sys, row: RowKey, last: nat, n: nat) returns (steps: seq<Step>)
    requires PendsOn(s, last, row) && n <= |s.procs|
    ensures Settling(h, s, steps, row) && AllRunWell(steps)
    ensures var t := Exec(h, s, steps);
            && t.db.files == s.db.files && |t.procs| == |s.procs| && t.procs[last] == s.procs[last]
            && forall j :: 0 <= j < n && j != last ==> !PendsOn(t, j, row)
  {
    if n == 0 {
      steps := [];
    } else {
      steps := FinishOthers(h, s, row, last, n - 1);
      var t := Exec(h, s, steps);
      if n - 1 != last && PendsOn(t, n - 1, row) {
        var more := Finish(h, t, n - 1, row);
        ExecSplit(h, s, steps, more);
        SettlingSplit(h, s, steps, more, row);
        var u := Exec(h, t, more);
        assert forall j :: 0 <= j < n - 1 && j != last ==> u.procs[j] == t.procs[j] && !PendsOn(t, j, row);
        steps := steps + more;
      }
    }
  }

  /** A request that owes an event with another etag than the row's can be the last to append it. */
  lemma {:induction false} LateAppendMisleads(h: Hash, files: Files, s: Sys, row: RowKey, i: nat) returns (steps: seq<Step>)
    requires Placed(s) && PendsOn(s, i, row) && s.procs[i].req.NewEtag(h) != Get(s.db.files, row)
    ensures Settling(h, s, steps, row) && AllRunWell(steps)
    ensures var t := Exec(h, s, steps); Quiet(t, row) && !Told(files, t, row)
  {
    var others := FinishOthers(h, s, row, i, |s.procs|);
    var t := Exec(h, s, others);
    var own := Finish(h, t, i, row);
    steps := others + own;
    ExecSplit(h, s, others, own);
    SettlingSplit(h, s, others, own, row);
    LastEtagSnoc(files, t.db.events, EventOf(h, s.procs[i].req), row);
    var u := Exec(h, t, own);
    forall j | 0 <= j < |u.procs|
      ensures !PendsOn(u, j, row)
    {
      assert j != i ==> !PendsOn(t, j, row) && u.procs[j] == t.procs[j];
    }
  }

  /**
   After any interleaving, the events of a row are certain to catch up with it if and only if every request that
   still owes one wrote the etag the row has now, and, if none does, the events tell that etag already. So two
   requests on one row between commit and append with different etags always have a continuation that misleads.
   */
  lemma {:induction false} CatchesUpIff(
    h: Hash, files: Files, objects: map<string, Bytes>, steps: seq<Step>, row: RowKey)
    ensures var s := Exec(h, Start(files, objects), steps);
            AlwaysCatchesUp(h, files, s, row) <==> InStep(h, files, s, row)
  {
    var s := Exec(h, Start(files, objects), steps);
    ExecKeepsInv(h, files, Start(files, objects), steps);
    ExecPlaced(h, files, Start(files, objects), steps);
    if InStep(h, files, s, row) {
      forall more | Settling(h, s, more, row) && Quiet(Exec(h, s, more), row)
        ensures Told(files, Exec(h, s, more), row)
      {
        SettlingKeepsInStep(h, files, s, more, row);
      }
    } else if i :| PendsOn(s, i, row) && s.procs[i].req.NewEtag(h) != Get(s.db.files, row) {
      var more := LateAppendMisleads(h, files, s, row, i);
      assert Settling(h, s, more, row) && Quiet(Exec(h, s, more), row);
    } else {
      assert Settling(h, s, [], row) && Exec(h, s, []) == s;
    }
  }

  lemma {:induction false} TwoOwedEventsCanMislead(h: Hash, files: Files, s: Sys, row: RowKey, i: nat, j: nat)
      returns (steps: seq<Step>)
    requires Placed(s) && PendsOn(s, i, row) && PendsOn(s, j, row)
    requires s.procs[i].req.NewEtag(h) != s.procs[j].req.NewEtag(h)
    ensures Settling(h, s, steps, row)
    ensures var t := Exec(h, s, steps); Quiet(t, row) && !Told(files, t, row)
  {
    var late := if s.procs[i].req.NewEtag(h) != Get(s.db.files, row) then i else j;
    steps := LateAppendMisleads(h, files, s, row, late);
  }
}
