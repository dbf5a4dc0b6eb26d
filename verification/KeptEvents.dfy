/**
 Which requests in flight can still make the event table tell another etag than a row's: exactly, over every
 continuation in which no further request for the row arrives, whatever commits in it.
 */
module KeptEvents {
  import opened Common
  import opened Resources
  import opened WriteProtocol
  import opened Linearizability
  import opened Rebuild
  import opened EventOrder
  import K = KeptAgreement

  /** No further request for the row arrives, and no append on it fails. */
  ghost predicate ClosingStep(s: Sys, st: Step, row: RowKey) {
    match st
    case Arrive(q) => Row(q.res) != row
    case Run(i, ok) => Live(s, st) && s.procs[i].row == row && s.procs[i].stage.Append? ==> ok
  }

  ghost predicate Closing(h: Hash, s: Sys, steps: seq<Step>, row: RowKey) {
    steps == [] ||
    var n := |steps| - 1;
    Closing(h, s, steps[..n], row) && ClosingStep(Exec(h, s, steps[..n]), steps[n], row)
  }

  /** Whenever nobody is between commit and append on the row, in whatever continuation, the events tell the row. */
  ghost predicate AlwaysTells(h: Hash, files: Files, s: Sys, row: RowKey) {
    forall steps :: Closing(h, s, steps, row) && Quiet(Exec(h, s, steps), row) ==> Told(files, Exec(h, s, steps), row)
  }

  /** Request `i` can still commit on the row if the row then has the value `v`. */
  predicate MayCommit(procs: seq<Proc>, i: int, row: RowKey, v: Option<string>) {
    0 <= i < |procs| && procs[i].row == row && K.Undecided(procs[i]) && procs[i].req.Condition().Holds(v)
  }

  /** Nobody can still change the row. */
  ghost predicate NoChange(h: Hash, procs: seq<Proc>, row: RowKey, v: Option<string>) {
    forall i :: MayCommit(procs, i, row, v) ==> procs[i].req.NewEtag(h) == v
  }

  /** Nobody can change the row behind the commit of another. */
  ghost predicate NoPair(h: Hash, procs: seq<Proc>, row: RowKey, v: Option<string>) {
    forall i, j :: i != j && MayCommit(procs, i, row, v) && MayCommit(procs, j, row, procs[i].req.NewEtag(h)) ==>
      procs[j].req.NewEtag(h) == procs[i].req.NewEtag(h)
  }

  /**
   Every request that still owes its event wrote what the row holds; while one does, nobody can change the row any
   more; while none does, the events tell the row, and no two requests can commit one behind the other's change.
   */
  ghost predicate Settled(h: Hash, files: Files, s: Sys, row: RowKey) {
    && InStep(h, files, s, row)
    && (if Quiet(s, row) then NoPair(h, s.procs, row, Get(s.db.files, row))
        else NoChange(h, s.procs, row, Get(s.db.files, row)))
  }

  // ---------- settled rows stay settled ----------

  /** A request is decided by its commit and never undecided again. */
  predicate Decides(db: Db, p: Proc, ok: bool, p2: Proc) {
    (K.Undecided(p2) ==> K.Undecided(p)) && (Grants(db, p, ok) ==> K.Undecided(p) && !K.Undecided(p2))
  }

  lemma {:induction false} StepDecidesOnce(h: Hash, db: Db, rid: nat, p: Proc, ok: bool)
    requires !p.stage.Finished?
    ensures Decides(db, p, ok, StepProc(h, db, rid, p, ok).1)
  {
  }

  /** Nobody can commit who could not before. */
  ghost predicate Fewer(procs: seq<Proc>, after: seq<Proc>, row: RowKey) {
    forall j, v :: MayCommit(after, j, row, v) ==> MayCommit(procs, j, row, v) && after[j].req == procs[j].req
  }

  lemma {:induction false} FewerMayCommit(procs: seq<Proc>, i: nat, p2: Proc, row: RowKey)
    requires i < |procs| && (p2.req, p2.row) == (procs[i].req, procs[i].row) && (K.Undecided(p2) ==> K.Undecided(procs[i]))
    ensures Fewer(procs, procs[i := p2], row)
  {
    var after := procs[i := p2];
    forall j, v | MayCommit(after, j, row, v)
      ensures MayCommit(procs, j, row, v) && after[j].req == procs[j].req
    {
      assert after[j] == if j == i then p2 else procs[j];
    }
  }

  /** Who still owes an event on the row after the step did so before, or has just committed. */
  lemma {:induction false} WhoPends(h: Hash, s: Sys, i: nat, ok: bool, db2: Db, p2: Proc, row: RowKey)
    requires i < |s.procs| && Moves(h, ok, s.db, s.procs[i], db2, p2)
    ensures var t := Sys(db2, s.procs[i := p2]);
            && (!(Grants(s.db, s.procs[i], ok) && s.procs[i].row == row) ==>
                  (Quiet(s, row) ==> Quiet(t, row)) && Get(db2.files, row) == Get(s.db.files, row))
            && (Grants(s.db, s.procs[i], ok) && s.procs[i].row == row ==>
                  && PendsOn(t, i, row) && Get(db2.files, row) == s.procs[i].req.NewEtag(h)
                  && forall j :: j != i && PendsOn(t, j, row) ==> PendsOn(s, j, row))
  {
    var t := Sys(db2, s.procs[i := p2]);
    assert forall j :: j != i ==> (PendsOn(t, j, row) <==> PendsOn(s, j, row));
    if !(Grants(s.db, s.procs[i], ok) && s.procs[i].row == row) {
      assert PendsOn(t, i, row) ==> PendsOn(s, i, row);
    }
  }

  /** A commit on a settled row leaves everybody in step, and nobody able to change the row behind it. */
  lemma {:induction false} CommitStaysSettled(
    h: Hash, files: Files, s: Sys, i: nat, ok: bool, db2: Db, p2: Proc, row: RowKey)
    requires Settled(h, files, s, row) && i < |s.procs| && Moves(h, ok, s.db, s.procs[i], db2, p2)
    requires Decides(s.db, s.procs[i], ok, p2) && Grants(s.db, s.procs[i], ok) && s.procs[i].row == row
    ensures Settled(h, files, Sys(db2, s.procs[i := p2]), row)
  {
    var t, v, w := Sys(db2, s.procs[i := p2]), Get(s.db.files, row), s.procs[i].req.NewEtag(h);
    WhoPends(h, s, i, ok, db2, p2, row);
    FewerMayCommit(s.procs, i, p2, row);
    assert MayCommit(s.procs, i, row, v);
    assert !MayCommit(t.procs, i, row, w);
    forall j | MayCommit(t.procs, j, row, w)
      ensures t.procs[j].req.NewEtag(h) == w
    {
      assert j != i && MayCommit(s.procs, j, row, w);
    }
  }

  lemma {:induction false} OtherStaysSettled(
    h: Hash, files: Files, s: Sys, i: nat, ok: bool, db2: Db, p2: Proc, row: RowKey)
    requires Settled(h, files, s, row) && i < |s.procs| && Moves(h, ok, s.db, s.procs[i], db2, p2)
    requires s.procs[i].row == Row(s.procs[i].req.res)
    requires Decides(s.db, s.procs[i], ok, p2) && !(Grants(s.db, s.procs[i], ok) && s.procs[i].row == row)
    requires s.procs[i].row == row && s.procs[i].stage.Append? ==> ok
    ensures Settled(h, files, Sys(db2, s.procs[i := p2]), row)
  {
    var t, v := Sys(db2, s.procs[i := p2]), Get(s.db.files, row);
    WhoPends(h, s, i, ok, db2, p2, row);
    MovesInStep(h, files, s, i, ok, db2, p2, row);
    FewerMayCommit(s.procs, i, p2, row);
    if Quiet(t, row) {
      FewerPairs(h, s.procs, t.procs, row, v);
    }
  }

  lemma {:induction false} FewerPairs(h: Hash, procs: seq<Proc>, after: seq<Proc>, row: RowKey, v: Option<string>)
    requires NoChange(h, procs, row, v) || NoPair(h, procs, row, v)
    requires Fewer(procs, after, row)
    ensures NoPair(h, after, row, v)
  {
    forall i, j | i != j && MayCommit(after, i, row, v) && MayCommit(after, j, row, after[i].req.NewEtag(h))
      ensures after[j].req.NewEtag(h) == after[i].req.NewEtag(h)
    {
      assert MayCommit(procs, i, row, v) && MayCommit(procs, j, row, procs[i].req.NewEtag(h));
    }
  }

  lemma {:induction false} NextStaysSettled(h: Hash, files: Files, s: Sys, st: Step, row: RowKey)
    requires Placed(s) && Settled(h, files, s, row) && ClosingStep(s, st, row)
    ensures Settled(h, files, Next(h, s, st), row)
  {
    if st.Arrive? {
      var t := Next(h, s, st);
      assert forall i :: PendsOn(t, i, row) <==> PendsOn(s, i, row);
      assert forall i, v :: MayCommit(t.procs, i, row, v) <==> MayCommit(s.procs, i, row, v);
    } else if Live(s, st) {
      var i, p := st.rid, s.procs[st.rid];
      StepMoves(h, s.db, i, p, st.ok);
      StepDecidesOnce(h, s.db, i, p, st.ok);
      var (db2, p2) := StepProc(h, s.db, i, p, st.ok);
      if Grants(s.db, p, st.ok) && p.row == row {
        CommitStaysSettled(h, files, s, i, st.ok, db2, p2, row);
      } else {
        OtherStaysSettled(h, files, s, i, st.ok, db2, p2, row);
      }
    }
  }

  lemma {:induction false} StaysSettled(h: Hash, files: Files, s: Sys, steps: seq<Step>, row: RowKey)
    requires Inv(h, files, s) && Placed(s) && Settled(h, files, s, row) && Closing(h, s, steps, row)
    ensures Settled(h, files, Exec(h, s, steps), row)
  {
    if steps != [] {
      var n := |steps| - 1;
      StaysSettled(h, files, s, steps[..n], row);
      ExecPlaced(h, files, s, steps[..n]);
      NextStaysSettled(h, files, Exec(h, s, steps[..n]), steps[n], row);
    }
  }

  // ---------- unsettled rows can mislead ----------

  lemma {:induction false} RunningWellCloses(h: Hash, s: Sys, steps: seq<Step>, row: RowKey)
    requires AllRunWell(steps)
    ensures Closing(h, s, steps, row)
  {
    if steps != [] {
      RunningWellCloses(h, s, steps[..|steps| - 1], row);
    }
  }

  /** A request whose condition holds comes closer to its commit, or commits. */
  lemma {:induction false} CommitComesCloser(h: Hash, db: Db, rid: nat, p: Proc)
    requires K.Undecided(p) && WellStaged(p) && p.req.Condition().Holds(Get(db.files, p.row))
    ensures var (db2, p2) := StepProc(h, db, rid, p, true);
            && (p2.req, p2.row) == (p.req, p.row)
            && if p.stage.Commit? then Pends(p2) && Get(db2.files, p.row) == p.req.NewEtag(h)
               else K.Undecided(p2) && WellStaged(p2) && K.ToGo(p2.stage) < K.ToGo(p.stage) && db2.files == db.files
  {
  }

  /** One successful statement of request `i`, then the rest. */
  lemma {:induction false} RunThenWell(h: Hash, s: Sys, i: nat, rest: seq<Step>)
    requires i < |s.procs| && !s.procs[i].stage.Finished? && AllRunWell(rest)
    ensures AllRunWell([Run(i, true)] + rest)
    ensures Exec(h, s, [Run(i, true)] + rest) == Exec(h, Next(h, s, Run(i, true)), rest)
  {
    ExecSplit(h, s, [Run(i, true)], rest);
    ExecSnoc(h, s, [], Run(i, true));
    assert [] + [Run(i, true)] == [Run(i, true)];
  }

  /** Request `i` commits and nothing else happens. */
  lemma {:induction false} CommitRun(h: Hash, s: Sys, i: nat, row: RowKey) returns (steps: seq<Step>)
    requires MayCommit(s.procs, i, row, Get(s.db.files, row)) && WellStaged(s.procs[i])
    ensures AllRunWell(steps)
    ensures var t := Exec(h, s, steps);
            && |t.procs| == |s.procs| && PendsOn(t, i, row) && t.procs[i].req == s.procs[i].req
            && Get(t.db.files, row) == s.procs[i].req.NewEtag(h)
            && forall j :: 0 <= j < |s.procs| && j != i ==> t.procs[j] == s.procs[j]
    decreases K.ToGo(s.procs[i].stage)
  {
    var p := s.procs[i];
    CommitComesCloser(h, s.db, i, p);
    var (db2, p2) := StepProc(h, s.db, i, p, true);
    var t := Sys(db2, s.procs[i := p2]);
    assert t == Next(h, s, Run(i, true));
    var rest := [];
    if !p.stage.Commit? {
      rest := CommitRun(h, t, i, row);
    }
    RunThenWell(h, s, i, rest);
    steps := [Run(i, true)] + rest;
  }

  /** A request commits a change while another still owes its event. */
  lemma {:induction false} ChangeMisleads(h: Hash, files: Files, s: Sys, row: RowKey, i: nat, j: nat)
      returns (steps: seq<Step>)
    requires Inv(h, files, s) && Placed(s) && PendsOn(s, i, row) && s.procs[i].req.NewEtag(h) == Get(s.db.files, row)
    requires MayCommit(s.procs, j, row, Get(s.db.files, row)) && s.procs[j].req.NewEtag(h) != Get(s.db.files, row)
    ensures AllRunWell(steps)
    ensures var t := Exec(h, s, steps); Quiet(t, row) && !Told(files, t, row)
  {
    var a := CommitRun(h, s, j, row);
    var t := Exec(h, s, a);
    ExecPlaced(h, files, s, a);
    assert t.procs[i] == s.procs[i];
    var b := LateAppendMisleads(h, files, t, row, i);
    ExecSplit(h, s, a, b);
    steps := a + b;
  }

  /** Two requests commit one behind the other before either appends. */
  lemma {:induction false} PairMisleads(h: Hash, files: Files, s: Sys, row: RowKey, i: nat, j: nat)
      returns (steps: seq<Step>)
    requires Inv(h, files, s) && Placed(s) && i != j && MayCommit(s.procs, i, row, Get(s.db.files, row))
    requires MayCommit(s.procs, j, row, s.procs[i].req.NewEtag(h))
    requires s.procs[j].req.NewEtag(h) != s.procs[i].req.NewEtag(h)
    ensures AllRunWell(steps)
    ensures var t := Exec(h, s, steps); Quiet(t, row) && !Told(files, t, row)
  {
    var a := CommitRun(h, s, i, row);
    var t := Exec(h, s, a);
    ExecKeepsInv(h, files, s, a);
    ExecPlaced(h, files, s, a);
    assert t.procs[j] == s.procs[j] && MayCommit(t.procs, j, row, Get(t.db.files, row));
    var b := ChangeMisleads(h, files, t, row, i, j);
    ExecSplit(h, s, a, b);
    steps := a + b;
  }

  lemma {:induction false} UnsettledMisleads(h: Hash, files: Files, s: Sys, row: RowKey) returns (steps: seq<Step>)
    requires Inv(h, files, s) && Placed(s) && !Settled(h, files, s, row)
    ensures AllRunWell(steps)
    ensures var t := Exec(h, s, steps); Quiet(t, row) && !Told(files, t, row)
  {
    var v := Get(s.db.files, row);
    if i :| PendsOn(s, i, row) && s.procs[i].req.NewEtag(h) != v {
      steps := LateAppendMisleads(h, files, s, row, i);
    } else if Quiet(s, row) && !Told(files, s, row) {
      steps := [];
    } else if Quiet(s, row) {
      var i, j :| i != j && MayCommit(s.procs, i, row, v) && MayCommit(s.procs, j, row, s.procs[i].req.NewEtag(h))
                  && s.procs[j].req.NewEtag(h) != s.procs[i].req.NewEtag(h);
      steps := PairMisleads(h, files, s, row, i, j);
    } else {
      var i :| 0 <= i < |s.procs| && PendsOn(s, i, row);
      var j :| MayCommit(s.procs, j, row, v) && s.procs[j].req.NewEtag(h) != v;
      steps := ChangeMisleads(h, files, s, row, i, j);
    }
  }

  /**
   After any interleaving, the events tell the row in every quiet state of every continuation without new requests
   for it if and only if the row is settled: every request that owes an event wrote what the row holds, and no
   request in flight can change the row while another one owes its event, now or after a commit still to come.
   */
  lemma {:induction false} AlwaysTellsIff(
    h: Hash, files: Files, objects: map<string, Bytes>, steps: seq<Step>, row: RowKey)
    ensures var s := Exec(h, Start(files, objects), steps);
            AlwaysTells(h, files, s, row) <==> Settled(h, files, s, row)
  {
    var s := Exec(h, Start(files, objects), steps);
    ExecKeepsInv(h, files, Start(files, objects), steps);
    ExecPlaced(h, files, Start(files, objects), steps);
    if Settled(h, files, s, row) {
      forall more | Closing(h, s, more, row) && Quiet(Exec(h, s, more), row)
        ensures Told(files, Exec(h, s, more), row)
      {
        StaysSettled(h, files, s, more, row);
      }
    } else {
      var more := UnsettledMisleads(h, files, s, row);
      RunningWellCloses(h, s, more, row);
    }
  }
}
