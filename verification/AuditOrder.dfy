/**
 The audit log when requests overlap. A PUT reads its etag_before well before it commits, and the audit row is written
 after the commit: when etag_before is true, and when the log of a row is a chain.
 */
module AuditOrder {
  import opened Common
  import opened Resources
  import opened WriteProtocol
  import opened Linearizability
  import opened Rebuild
  import opened EventOrder

  // ---------- what etag_before says ----------

  function EtagOf(v: Option<string>): string {
    if v.Some? then v.value else ""
  }

  /** What a request keeps as the old etag is what the row held when it looked, or nothing. */
  ghost predicate LookedUp(files: Files, log: seq<Decision>, p: Proc) {
    match p.looked
    case None => p.oldEtag == ""
    case Some(l) => l <= |log| && p.oldEtag == EtagOf(Before(files, log, l, p.row))
  }

  ghost predicate AllLookedUp(files: Files, s: Sys) {
    forall i :: 0 <= i < |s.procs| ==> LookedUp(files, s.db.log, s.procs[i])
  }

  lemma {:induction false} LookedUpStays(files: Files, log: seq<Decision>, more: seq<Decision>, p: Proc)
    requires LookedUp(files, log, p) && log <= more
    ensures LookedUp(files, more, p)
  {
    if p.looked.Some? {
      assert more[..p.looked.value] == log[..p.looked.value];
    }
  }

  /** Only a PUT's lookup changes what is kept, and it keeps what the row holds. */
  lemma {:induction false} StepLooks(h: Hash, db: Db, rid: nat, p: Proc, ok: bool)
    requires !p.stage.Finished?
    ensures var (db2, p2) := StepProc(h, db, rid, p, ok);
            && p2.row == p.row && db.log <= db2.log
            && if p.stage.Look? && p.req.verb.Put? && ok then
                 p2.looked == Some(|db.log|) && p2.oldEtag == EtagOf(Get(db.files, p.row)) && db2.log == db.log
               else if p.stage.Look? && p.req.verb.Put? then p2.looked == None && p2.oldEtag == ""
               else p2.looked == p.looked && p2.oldEtag == p.oldEtag
  {
  }

  lemma {:induction false} NextLooksUp(h: Hash, files: Files, s: Sys, st: Step)
    requires Inv(h, files, s) && AllLookedUp(files, s)
    ensures AllLookedUp(files, Next(h, s, st))
  {
    if Live(s, st) {
      var t := Next(h, s, st);
      StepLooks(h, s.db, st.rid, s.procs[st.rid], st.ok);
      forall i | 0 <= i < |t.procs|
        ensures LookedUp(files, t.db.log, t.procs[i])
      {
        LookedUpStays(files, s.db.log, t.db.log, s.procs[i]);
        assert t.db.log == s.db.log ==> t.db.log[..|t.db.log|] == s.db.log;
      }
    }
  }

  lemma {:induction false} ExecLooksUp(h: Hash, files: Files, objects: map<string, Bytes>, steps: seq<Step>)
    ensures AllLookedUp(files, Exec(h, Start(files, objects), steps))
  {
    if steps != [] {
      var n := |steps| - 1;
      ExecLooksUp(h, files, objects, steps[..n]);
      ExecKeepsInv(h, files, Start(files, objects), steps[..n]);
      NextLooksUp(h, files, Exec(h, Start(files, objects), steps[..n]), steps[n]);
    }
  }

  /** The audit row tells what the row was; attachment deletes record nothing. */
  predicate Tells(a: AuditRow, was: Option<string>) {
    a.action != DeleteAttachment ==> a.before == was
  }

  /**
   The last commit on the row between a PUT's lookup and its commit, if there is one, brought back the etag the PUT
   had looked up. A PUT whose lookup failed must be a create.
   */
  ghost predicate FreshLookup(files: Files, log: seq<Decision>, p: Proc)
    requires LookedUp(files, log, p)
  {
    p.req.verb.Put? ==>
      match p.looked
      case None => p.req.IsCreate()
      case Some(l) =>
        var last := LastCommit(log, l, p.row);
        last.None? || last.value.write == Before(files, log, l, p.row)
  }

  ghost predicate NoEmptyWrites(files: Files, log: seq<Decision>) {
    NoEmptyEtags(files) && forall k :: 0 <= k < |log| ==> log[k].write != Some("")
  }

  lemma {:induction false} NeverEmpty(files: Files, log: seq<Decision>, row: RowKey)
    requires NoEmptyWrites(files, log)
    ensures Get(SeqRun(files, log), row) != Some("")
  {
    if log != [] {
      NeverEmpty(files, log[..|log| - 1], row);
    }
  }

  lemma {:induction false} WritesAreHashes(h: Hash, files: Files, s: Sys)
    requires IsHash(h) && NoEmptyEtags(files) && Inv(h, files, s)
    ensures NoEmptyWrites(files, s.db.log)
  {
    forall k | 0 <= k < |s.db.log|
      ensures s.db.log[k].write != Some("")
    {
      DecisionsHave(s.db.log, k);
    }
  }

  /**
   After any interleaving, the audit row of a request about to commit tells what the row is at the commit if and only
   if its lookup is fresh: no commit on the row in between left another etag than the one looked up.
   */
  lemma {:induction false} BeforeIsTrueIff(h: Hash, files: Files, s: Sys, i: nat)
    requires IsHash(h) && NoEmptyEtags(files) && Inv(h, files, s) && Placed(s) && AllLookedUp(files, s)
    requires i < |s.procs| && Grants(s.db, s.procs[i], true)
    ensures LookedUp(files, s.db.log, s.procs[i])
    ensures Tells(AuditOf(h, s.procs[i]), Get(s.db.files, s.procs[i].row)) <==> FreshLookup(files, s.db.log, s.procs[i])
  {
    var p, log := s.procs[i], s.db.log;
    WritesAreHashes(h, files, s);
    NeverEmpty(files, log, p.row);
    if p.req.verb.Put? && p.looked.Some? {
      var l := p.looked.value;
      LastCommitDecides(files, log, l, p.row);
      NeverEmpty(files, log[..l], p.row);
    }
  }

  // ---------- the chain of one row ----------

  /** What the audit log says the row holds. */
  function LastAudit(files: Files, rows: seq<AuditRow>, row: RowKey): Option<string> {
    if rows == [] then Get(files, row)
    else
      var a := rows[|rows| - 1];
      if a.row == row then a.after else LastAudit(files, rows[..|rows| - 1], row)
  }

  /** Every audit row of the row starts from what the one before it on the row ended with. */
  ghost predicate ChainedOn(files: Files, rows: seq<AuditRow>, row: RowKey) {
    rows == [] ||
    var a, earlier := rows[|rows| - 1], rows[..|rows| - 1];
    ChainedOn(files, earlier, row) && (a.row == row ==> Tells(a, LastAudit(files, earlier, row)))
  }

  lemma {:induction false} ChainSnoc(files: Files, rows: seq<AuditRow>, a: AuditRow, row: RowKey)
    ensures LastAudit(files, rows + [a], row) == if a.row == row then a.after else LastAudit(files, rows, row)
    ensures ChainedOn(files, rows + [a], row) <==>
              ChainedOn(files, rows, row) && (a.row == row ==> Tells(a, LastAudit(files, rows, row)))
  {
    assert (rows + [a])[..|rows|] == rows;
  }

  /** The request is between its commit and its audit row. */
  predicate Unaudited(p: Proc) {
    p.stage.Sweep? || p.stage.Audit?
  }

  ghost predicate UnauditedOn(s: Sys, i: int, row: RowKey) {
    0 <= i < |s.procs| && Unaudited(s.procs[i]) && s.procs[i].row == row
  }

  ghost predicate AllAudited(s: Sys, row: RowKey) {
    forall i :: !UnauditedOn(s, i, row)
  }

  /** One statement commits and then owes its audit row, or writes it, or touches neither index nor audit log. */
  ghost predicate Audits(h: Hash, ok: bool, db: Db, p: Proc, db2: Db, p2: Proc) {
    && (p2.req, p2.row) == (p.req, p.row)
    && if Grants(db, p, ok) then
         && Unaudited(p2) && db2.files == Store(db.files, p.row, p.req.NewEtag(h)) && db2.audit == db.audit
         && AuditOf(h, p2) == AuditOf(h, p)
       else if p.stage.Audit? then
         !Unaudited(p2) && db2.files == db.files && db2.audit == db.audit + if ok then [AuditOf(h, p)] else []
       else
         && Unaudited(p2) == Unaudited(p) && db2.files == db.files && db2.audit == db.audit
         && (Unaudited(p) ==> AuditOf(h, p2) == AuditOf(h, p))
  }

  lemma {:induction false} StepAudits(h: Hash, db: Db, rid: nat, p: Proc, ok: bool)
    requires !p.stage.Finished?
    ensures var (db2, p2) := StepProc(h, db, rid, p, ok);
            Audits(h, ok, db, p, db2, p2)
  {
  }

  /** On this row no audit insert fails, and nobody commits while another request owes its audit row. */
  ghost predicate InTurnStep(s: Sys, st: Step, row: RowKey) {
    Live(s, st) && s.procs[st.rid].row == row ==>
      && (s.procs[st.rid].stage.Audit? ==> st.ok)
      && (Grants(s.db, s.procs[st.rid], st.ok) ==> AllAudited(s, row))
  }

  ghost predicate InTurnRun(h: Hash, s: Sys, steps: seq<Step>, row: RowKey) {
    steps == [] ||
    var n := |steps| - 1;
    InTurnRun(h, s, steps[..n], row) && InTurnStep(Exec(h, s, steps[..n]), steps[n], row)
  }

  /** If the step commits on the row, its lookup is fresh. */
  ghost predicate FreshStep(files: Files, s: Sys, st: Step, row: RowKey) {
    Live(s, st) && s.procs[st.rid].row == row && Grants(s.db, s.procs[st.rid], st.ok) ==>
      LookedUp(files, s.db.log, s.procs[st.rid]) && FreshLookup(files, s.db.log, s.procs[st.rid])
  }

  /** Every commit on the row has a fresh lookup. */
  ghost predicate FreshRun(h: Hash, files: Files, s: Sys, steps: seq<Step>, row: RowKey) {
    steps == [] ||
    var n := |steps| - 1;
    FreshRun(h, files, s, steps[..n], row) && FreshStep(files, Exec(h, s, steps[..n]), steps[n], row)
  }

  /**
   At most one request owes the row's audit row, which is then about the last change of the row; `chain` says
   whether the log is a chain and that audit row will continue it.
   */
  ghost predicate AuditInTurn(h: Hash, files: Files, s: Sys, row: RowKey, chain: bool) {
    var last := LastAudit(files, s.db.audit, row);
    && (forall i, j :: UnauditedOn(s, i, row) && UnauditedOn(s, j, row) ==> i == j)
    && (forall i :: UnauditedOn(s, i, row) ==> Get(s.db.files, row) == s.procs[i].req.NewEtag(h))
    && (AllAudited(s, row) ==> last == Get(s.db.files, row))
    && (chain <==> ChainedOn(files, s.db.audit, row)
                   && forall i :: UnauditedOn(s, i, row) ==> Tells(AuditOf(h, s.procs[i]), last))
  }

  lemma {:induction false} CommitInTurn(
    h: Hash, files: Files, s: Sys, i: nat, ok: bool, db2: Db, p2: Proc, row: RowKey, chain: bool)
    requires AuditInTurn(h, files, s, row, chain) && i < |s.procs| && Audits(h, ok, s.db, s.procs[i], db2, p2)
    requires s.procs[i].row == row && Grants(s.db, s.procs[i], ok) && AllAudited(s, row)
    ensures AuditInTurn(h, files, Sys(db2, s.procs[i := p2]), row,
                        chain && Tells(AuditOf(h, s.procs[i]), Get(s.db.files, row)))
  {
    var t := Sys(db2, s.procs[i := p2]);
    assert UnauditedOn(t, i, row);
    forall j | UnauditedOn(t, j, row)
      ensures j == i
    {
      assert !UnauditedOn(s, j, row);
    }
  }

  lemma {:induction false} InsertInTurn(
    h: Hash, files: Files, s: Sys, i: nat, ok: bool, db2: Db, p2: Proc, row: RowKey, chain: bool)
    requires IsHash(h) && AuditInTurn(h, files, s, row, chain) && i < |s.procs| && Audits(h, ok, s.db, s.procs[i], db2, p2)
    requires s.procs[i].row == row && s.procs[i].stage.Audit? && ok
    ensures AuditInTurn(h, files, Sys(db2, s.procs[i := p2]), row, chain)
  {
    var t := Sys(db2, s.procs[i := p2]);
    var a := AuditOf(h, s.procs[i]);
    ChainSnoc(files, s.db.audit, a, row);
    assert UnauditedOn(s, i, row);
    forall j
      ensures !UnauditedOn(t, j, row)
    {
      assert UnauditedOn(t, j, row) ==> j != i && UnauditedOn(s, j, row);
    }
    assert h(s.procs[i].req.body) != "";
    assert a.after == s.procs[i].req.NewEtag(h);
  }

  /** Nothing that concerns the row's audit rows is different. */
  ghost predicate SameOn(h: Hash, files: Files, s: Sys, t: Sys, row: RowKey) {
    && Get(t.db.files, row) == Get(s.db.files, row)
    && LastAudit(files, t.db.audit, row) == LastAudit(files, s.db.audit, row)
    && (ChainedOn(files, t.db.audit, row) <==> ChainedOn(files, s.db.audit, row))
    && (forall j :: UnauditedOn(t, j, row) <==> UnauditedOn(s, j, row))
    && (forall j :: UnauditedOn(t, j, row) ==>
          t.procs[j].req == s.procs[j].req && AuditOf(h, t.procs[j]) == AuditOf(h, s.procs[j]))
  }

  lemma {:induction false} SameInTurn(h: Hash, files: Files, s: Sys, t: Sys, row: RowKey, chain: bool)
    requires AuditInTurn(h, files, s, row, chain) && SameOn(h, files, s, t, row)
    ensures AuditInTurn(h, files, t, row, chain)
  {
    assert AllAudited(t, row) <==> AllAudited(s, row);
  }

  lemma {:induction false} OtherInTurn(
    h: Hash, files: Files, s: Sys, i: nat, ok: bool, db2: Db, p2: Proc, row: RowKey, chain: bool)
    requires AuditInTurn(h, files, s, row, chain) && i < |s.procs| && Audits(h, ok, s.db, s.procs[i], db2, p2)
    requires s.procs[i].row == row ==> !Grants(s.db, s.procs[i], ok) && !s.procs[i].stage.Audit?
    ensures AuditInTurn(h, files, Sys(db2, s.procs[i := p2]), row, chain)
  {
    ChainSnoc(files, s.db.audit, AuditOf(h, s.procs[i]), row);
    assert s.db.audit + [] == s.db.audit;
    SameInTurn(h, files, s, Sys(db2, s.procs[i := p2]), row, chain);
  }

  lemma {:induction false} NextInTurn(h: Hash, files: Files, s: Sys, st: Step, row: RowKey, chain: bool)
    requires IsHash(h) && NoEmptyEtags(files) && Inv(h, files, s) && Placed(s) && AllLookedUp(files, s)
    requires AuditInTurn(h, files, s, row, chain) && InTurnStep(s, st, row)
    ensures AuditInTurn(h, files, Next(h, s, st), row, chain && FreshStep(files, s, st, row))
  {
    if Live(s, st) {
      var i, p := st.rid, s.procs[st.rid];
      StepAudits(h, s.db, i, p, st.ok);
      var (db2, p2) := StepProc(h, s.db, i, p, st.ok);
      if p.row == row && Grants(s.db, p, st.ok) {
        BeforeIsTrueIff(h, files, s, i);
        CommitInTurn(h, files, s, i, st.ok, db2, p2, row, chain);
      } else if p.row == row && p.stage.Audit? {
        InsertInTurn(h, files, s, i, st.ok, db2, p2, row, chain);
      } else {
        OtherInTurn(h, files, s, i, st.ok, db2, p2, row, chain);
      }
    } else {
      var t := Next(h, s, st);
      assert forall j :: UnauditedOn(t, j, row) <==> UnauditedOn(s, j, row);
    }
  }

  lemma {:induction false} ExecInTurn(h: Hash, files: Files, objects: map<string, Bytes>, steps: seq<Step>, row: RowKey)
    requires IsHash(h) && NoEmptyEtags(files) && InTurnRun(h, Start(files, objects), steps, row)
    ensures var s0 := Start(files, objects);
            AuditInTurn(h, files, Exec(h, s0, steps), row, FreshRun(h, files, s0, steps, row))
  {
    var s0 := Start(files, objects);
    if steps != [] {
      var n := |steps| - 1;
      ExecInTurn(h, files, objects, steps[..n], row);
      ExecKeepsInv(h, files, s0, steps[..n]);
      ExecPlaced(h, files, s0, steps[..n]);
      ExecLooksUp(h, files, objects, steps[..n]);
      NextInTurn(h, files, Exec(h, s0, steps[..n]), steps[n], row, FreshRun(h, files, s0, steps[..n], row));
    }
  }

  /**
   For every interleaving in which, on this row, no audit insert fails and nobody commits while another request owes
   its audit row: once none is owed, the row's audit rows are a chain from its initial to its current etag if and
   only if every commit on the row had a fresh lookup. That they end with the current etag is true in any case.
   */
  lemma {:induction false} AuditChainsIff(h: Hash, files: Files, objects: map<string, Bytes>, steps: seq<Step>, row: RowKey)
    requires IsHash(h) && NoEmptyEtags(files) && InTurnRun(h, Start(files, objects), steps, row)
    requires AllAudited(Exec(h, Start(files, objects), steps), row)
    ensures var db := Exec(h, Start(files, objects), steps).db;
            && LastAudit(files, db.audit, row) == Get(db.files, row)
            && (ChainedOn(files, db.audit, row) <==> FreshRun(h, files, Start(files, objects), steps, row))
  {
    ExecInTurn(h, files, objects, steps, row);
  }

  // ---------- the whole log ----------

  lemma {:induction false} FoldGivesLastAudit(files: Files, rows: seq<AuditRow>, row: RowKey)
    ensures Get(FoldAudit(files, rows), row) == LastAudit(files, rows, row)
  {
    if rows != [] {
      FoldGivesLastAudit(files, rows[..|rows| - 1], row);
    }
  }

  ghost predicate ChainedOnAll(files: Files, rows: seq<AuditRow>) {
    forall row :: ChainedOn(files, rows, row)
  }

  /** The whole log is a chain exactly when it is one on every row. */
  lemma {:induction false} ChainedIffOnEveryRow(files: Files, rows: seq<AuditRow>)
    ensures Chained(files, rows) <==> ChainedOnAll(files, rows)
  {
    if rows != [] {
      var a, earlier := rows[|rows| - 1], rows[..|rows| - 1];
      ChainedIffOnEveryRow(files, earlier);
      FoldGivesLastAudit(files, earlier, a.row);
      assert ChainedOn(files, rows, a.row) <==> ChainedOn(files, earlier, a.row) && Tells(a, LastAudit(files, earlier, a.row));
      if ChainedOnAll(files, earlier) && Tells(a, LastAudit(files, earlier, a.row)) {
        forall row
          ensures ChainedOn(files, rows, row)
        {
          assert ChainedOn(files, earlier, row);
        }
      }
      if ChainedOnAll(files, rows) {
        forall row
          ensures ChainedOn(files, earlier, row)
        {
          assert ChainedOn(files, rows, row);
        }
      }
    }
  }

  /** So a run that keeps to this on every row leaves a log that chains the initial table to the current one. */
  lemma {:induction false} OverlappingAuditIsAChain(h: Hash, files: Files, objects: map<string, Bytes>, steps: seq<Step>)
    requires IsHash(h) && NoEmptyEtags(files)
    requires forall row :: InTurnRun(h, Start(files, objects), steps, row)
    requires forall row :: FreshRun(h, files, Start(files, objects), steps, row)
    requires forall row :: AllAudited(Exec(h, Start(files, objects), steps), row)
    ensures var db := Exec(h, Start(files, objects), steps).db;
            Chained(files, db.audit) && FoldAudit(files, db.audit) == db.files
  {
    var db := Exec(h, Start(files, objects), steps).db;
    forall row
      ensures ChainedOn(files, db.audit, row) && Get(FoldAudit(files, db.audit), row) == Get(db.files, row)
    {
      assert AllAudited(Exec(h, Start(files, objects), steps), row);
      AuditChainsIff(h, files, objects, steps, row);
      FoldGivesLastAudit(files, db.audit, row);
    }
    assert ChainedOnAll(files, db.audit);
    ChainedIffOnEveryRow(files, db.audit);
    SameLookups(FoldAudit(files, db.audit), db.files);
  }
}
