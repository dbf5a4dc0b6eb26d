/**
 Rebuilding the index: from events in commit order after any interleaving, and, when requests are served one at a
 time, from the event table and the audit log as they are; and when a row agrees with its S3 object.
 */
module Rebuild {
  import opened Common
  import opened Resources
  import opened WriteProtocol
  import opened Linearizability
  import opened Conservation
  import opened SerialWrites

  /** What a consumer of the event stream does: keep the last etag announced for each resource. */
  function FoldEvents(files: Files, events: seq<Event>): Files {
    if events == [] then files
    else
      var e := events[|events| - 1];
      Store(FoldEvents(files, events[..|events| - 1]), Row(e.res), e.etag)
  }

  lemma {:induction false} FoldSnoc(files: Files, events: seq<Event>, e: Event)
    ensures FoldEvents(files, events + [e]) == Store(FoldEvents(files, events), Row(e.res), e.etag)
  {
    assert (events + [e])[..|events|] == events;
  }

  // ---------- any interleaving ----------

  /** Every request and every decision is about the row and key of a valid resource. */
  ghost predicate Placed(s: Sys) {
    && (forall i :: 0 <= i < |s.procs| ==>
          var p := s.procs[i]; p.req.Valid() && p.row == Row(p.req.res) && p.s3Key == S3Key(p.req.res))
    && (forall k :: 0 <= k < |s.db.log| ==> s.db.log[k].req.Valid() && s.db.log[k].row == Row(s.db.log[k].req.res))
  }

  lemma {:induction false} NextPlaced(h: Hash, files: Files, s: Sys, st: Step)
    requires Inv(h, files, s) && Placed(s)
    ensures Placed(Next(h, s, st))
  {
    if st.Run? && st.rid < |s.procs| && !s.procs[st.rid].stage.Finished? {
      var db2, p2 := RunDecides(h, s, st.rid, st.ok);
      DecidesPlaced(h, s, st.rid, db2, p2);
    }
  }

  lemma {:induction false} DecidedIsOwn(h: Hash, rid: nat, p: Proc, d: Decision)
    requires d in Decided(h, rid, p)
    ensures d.req == p.req && d.row == p.row && d.write == p.req.NewEtag(h)
  {
    assert Decided(h, rid, p) == [DecisionOf(h, rid, p, true)] || Decided(h, rid, p) == [DecisionOf(h, rid, p, false)];
  }

  lemma {:induction false} DecidesPlaced(h: Hash, s: Sys, i: nat, db2: Db, p2: Proc)
    requires Placed(s) && i < |s.procs| && Decides(h, i, s.db, s.procs[i], db2, p2)
    ensures Placed(Sys(db2, s.procs[i := p2]))
  {
    if |db2.log| > |s.db.log| {
      var d := db2.log[|s.db.log|];
      DecidedIsOwn(h, i, p2, d);
    }
  }

  lemma {:induction false} ExecPlaced(h: Hash, files: Files, s: Sys, steps: seq<Step>)
    requires Inv(h, files, s) && Placed(s)
    ensures Placed(Exec(h, s, steps))
  {
    if steps != [] {
      ExecPlaced(h, files, s, steps[..|steps| - 1]);
      ExecKeepsInv(h, files, s, steps[..|steps| - 1]);
      NextPlaced(h, files, Exec(h, s, steps[..|steps| - 1]), steps[|steps| - 1]);
    }
  }

  lemma {:induction false} FoldCommitEvents(files: Files, log: seq<Decision>)
    requires Sound(files, log)
    requires forall k :: 0 <= k < |log| ==> log[k].row == Row(log[k].req.res)
    ensures FoldEvents(files, CommitEvents(files, log)) == SeqRun(files, log)
  {
    if log != [] {
      var d, earlier := log[|log| - 1], log[..|log| - 1];
      FoldCommitEvents(files, earlier);
      if d.granted {
        var before := Get(SeqRun(files, earlier), d.row);
        FoldSnoc(files, CommitEvents(files, earlier), TransitionEvent(d.req.res, before, d.write, d.req.actor));
      } else {
        assert CommitEvents(files, log) == CommitEvents(files, earlier);
      }
    }
  }

  /** After any interleaving, the committed transitions folded in commit order give exactly the `files` table. */
  lemma {:induction false} CommitOrderRebuildsIndex(h: Hash, files: Files, objects: map<string, Bytes>, steps: seq<Step>)
    ensures var s := Exec(h, Start(files, objects), steps);
            FoldEvents(files, CommitEvents(files, s.db.log)) == s.db.files
  {
    var s0 := Start(files, objects);
    ExecKeepsInv(h, files, s0, steps);
    ExecPlaced(h, files, s0, steps);
    FoldCommitEvents(files, Exec(h, s0, steps).db.log);
  }

  /** The etag a row has after its last event, or had from the start. */
  function LastEtag(files: Files, events: seq<Event>, row: RowKey): Option<string> {
    if events == [] then Get(files, row)
    else
      var e := events[|events| - 1];
      if Row(e.res) == row then e.etag else LastEtag(files, events[..|events| - 1], row)
  }

  lemma {:induction false} FoldGivesLastEtag(files: Files, events: seq<Event>, row: RowKey)
    ensures Get(FoldEvents(files, events), row) == LastEtag(files, events, row)
  {
    if events != [] {
      FoldGivesLastEtag(files, events[..|events| - 1], row);
    }
  }

  lemma {:induction false} SameLookups(a: Files, b: Files)
    requires forall row :: Get(a, row) == Get(b, row)
    ensures a == b
  {
    assert forall row :: row in a <==> Get(a, row).Some?;
    assert forall row :: row in b <==> Get(b, row).Some?;
    assert a.Keys == b.Keys;
    forall row | row in a
      ensures a[row] == b[row]
    {
      assert Get(a, row) == Get(b, row);
    }
  }

  // ---------- one request at a time: events and audit log ----------

  ghost predicate AllValid(jobs: seq<Job>) {
    forall i :: 0 <= i < |jobs| ==> jobs[i].req.Valid()
  }

  /** No job's statement at this stage fails. */
  ghost predicate NeverFails(jobs: seq<Job>, st: Stage) {
    forall i :: 0 <= i < |jobs| ==> st !in jobs[i].faults
  }

  function Fresh(files: Files, objects: map<string, Bytes>): Db {
    Start(files, objects).db
  }

  /** If no append fails, folding the whole event table yields exactly the path-to-etag index. */
  lemma {:induction false} EventsRebuildIndex(h: Hash, files: Files, objects: map<string, Bytes>, jobs: seq<Job>)
    requires NeverFails(jobs, Append)
    ensures var db := ServeAll(h, Fresh(files, objects), jobs);
            FoldEvents(files, db.events) == db.files
  {
    if jobs != [] {
      var n := |jobs| - 1;
      EventsRebuildIndex(h, files, objects, jobs[..n]);
      var db := ServeAll(h, Fresh(files, objects), jobs[..n]);
      var q := jobs[n].req;
      ServeProgress(h, db, n, q, jobs[n].faults);
      FoldSnoc(files, db.events, EventOf(h, q));
      assert db.events + [] == db.events;
    }
  }

  function FoldAudit(files: Files, rows: seq<AuditRow>): Files {
    if rows == [] then files
    else
      var a := rows[|rows| - 1];
      Store(FoldAudit(files, rows[..|rows| - 1]), a.row, a.after)
  }

  /** Attachment deletes record no etags; every other row's etag_before is what the earlier rows left. */
  ghost predicate Chained(files: Files, rows: seq<AuditRow>) {
    rows == [] ||
    var a, earlier := rows[|rows| - 1], rows[..|rows| - 1];
    && Chained(files, earlier)
    && (a.action != DeleteAttachment ==> a.before == Get(FoldAudit(files, earlier), a.row))
  }

  ghost predicate NoEmptyEtags(files: Files) {
    forall row :: row in files ==> files[row] != ""
  }

  lemma {:induction false} AuditSnoc(files: Files, rows: seq<AuditRow>, a: AuditRow)
    requires Chained(files, rows)
    requires a.action != DeleteAttachment ==> a.before == Get(FoldAudit(files, rows), a.row)
    ensures Chained(files, rows + [a])
    ensures FoldAudit(files, rows + [a]) == Store(FoldAudit(files, rows), a.row, a.after)
  {
    assert (rows + [a])[..|rows|] == rows;
  }

  lemma {:induction false} AuditTellsTransition(h: Hash, p: Proc, current: Option<string>)
    requires IsHash(h) && p.req.Valid() && p.req.Condition().Holds(current) && !p.req.LacksCondition() && WellStaged(p)
    requires current != Some("")
    requires p.req.verb.Put? ==> p.oldEtag == if current.Some? then current.value else ""
    ensures var a := AuditOf(h, p);
            && a.after == p.req.NewEtag(h)
            && (a.action != DeleteAttachment ==> a.before == current)
  {
    assert current.Some? ==> current.value != "";
    assert h(p.req.body) != "";
  }

  /**
   If no audit insert and no old-etag lookup fails, the audit log is a chain from the initial table to the current
   one: each row starts from the etag the previous row on its path ended with.
   */
  lemma {:induction false} AuditIsAChain(h: Hash, files: Files, objects: map<string, Bytes>, jobs: seq<Job>)
    requires IsHash(h) && NoEmptyEtags(files) && AllValid(jobs)
    requires NeverFails(jobs, Audit) && NeverFails(jobs, Look)
    ensures var db := ServeAll(h, Fresh(files, objects), jobs);
            Chained(files, db.audit) && FoldAudit(files, db.audit) == db.files && NoEmptyEtags(db.files)
  {
    if jobs != [] {
      var n := |jobs| - 1;
      AuditIsAChain(h, files, objects, jobs[..n]);
      var db := ServeAll(h, Fresh(files, objects), jobs[..n]);
      ServeKeepsChain(h, files, db, n, jobs[n].req, jobs[n].faults);
    }
  }

  lemma {:induction false} ServeKeepsChain(h: Hash, files: Files, db: Db, rid: nat, q: Request, faults: set<Stage>)
    requires IsHash(h) && q.Valid() && Audit !in faults && Look !in faults
    requires Chained(files, db.audit) && FoldAudit(files, db.audit) == db.files && NoEmptyEtags(db.files)
    ensures var db2 := Serve(h, db, rid, q, faults).0;
            Chained(files, db2.audit) && FoldAudit(files, db2.audit) == db2.files && NoEmptyEtags(db2.files)
  {
    ServeProgress(h, db, rid, q, faults);
    ProgressKeepsChain(h, files, db, q, faults, Serve(h, db, rid, q, faults).0, Serve(h, db, rid, q, faults).1);
  }

  lemma {:induction false} ProgressKeepsChain(
    h: Hash, files: Files, db: Db, q: Request, faults: set<Stage>, db2: Db, p2: Proc)
    requires IsHash(h) && q.Valid() && Audit !in faults && Look !in faults
    requires Chained(files, db.audit) && FoldAudit(files, db.audit) == db.files && NoEmptyEtags(db.files)
    requires p2.stage.Finished? && p2.row == Row(q.res) && Progress(h, db, q, faults, db2, p2)
    ensures Chained(files, db2.audit) && FoldAudit(files, db2.audit) == db2.files && NoEmptyEtags(db2.files)
  {
    if Committed(p2.stage) {
      assert db2.audit == db.audit + [AuditOf(h, p2)];
      CommitKeepsChain(h, files, db, db2, p2);
    } else {
      assert (db2.audit, db2.files) == (db.audit, db.files);
    }
  }

  /** A commit with its audit row. */
  lemma {:induction false} CommitKeepsChain(h: Hash, files: Files, db: Db, db2: Db, p: Proc)
    requires IsHash(h) && p.req.Valid() && WellStaged(p) && !p.req.LacksCondition()
    requires p.req.Condition().Holds(Get(db.files, p.row))
    requires p.req.verb.Put? ==> p.oldEtag == if p.row in db.files then db.files[p.row] else ""
    requires Chained(files, db.audit) && FoldAudit(files, db.audit) == db.files && NoEmptyEtags(db.files)
    requires db2.audit == db.audit + [AuditOf(h, p)] && db2.files == Store(db.files, p.row, p.req.NewEtag(h))
    ensures Chained(files, db2.audit) && FoldAudit(files, db2.audit) == db2.files && NoEmptyEtags(db2.files)
  {
    AuditTellsTransition(h, p, Get(db.files, p.row));
    AuditSnoc(files, db.audit, AuditOf(h, p));
    StoreNoEmpty(db.files, p.row, p.req.NewEtag(h));
  }

  lemma {:induction false} StoreNoEmpty(files: Files, row: RowKey, value: Option<string>)
    requires NoEmptyEtags(files) && value != Some("")
    ensures NoEmptyEtags(Store(files, row, value))
  {
  }

  /** The chain read row by row: with no row on the same path in between, before equals the previous after. */
  lemma {:induction false} BeforeIsPreviousAfter(files: Files, rows: seq<AuditRow>, i: nat, k: nat)
    requires Chained(files, rows) && i < k < |rows| && rows[i].row == rows[k].row
    requires forall j :: i < j < k ==> rows[j].row != rows[k].row
    requires rows[k].action != DeleteAttachment
    ensures rows[k].before == rows[i].after
  {
    var n := |rows| - 1;
    if k < n {
      BeforeIsPreviousAfter(files, rows[..n], i, k);
    } else {
      FoldKeeps(files, rows[..n], i, rows[k].row);
    }
  }

  lemma {:induction false} FoldKeeps(files: Files, rows: seq<AuditRow>, i: nat, row: RowKey)
    requires i < |rows| && rows[i].row == row
    requires forall j :: i < j < |rows| ==> rows[j].row != row
    ensures Get(FoldAudit(files, rows), row) == rows[i].after
  {
    var n := |rows| - 1;
    if i < n {
      FoldKeeps(files, rows[..n], i, row);
    }
  }

  // ---------- one request at a time: rows and S3 objects ----------

  /** A present row has an object, and the object hashes to the row's etag. */
  ghost predicate Agrees(h: Hash, db: Db, r: Resource) {
    Row(r) in db.files ==> S3Key(r) in db.objects && h(db.objects[S3Key(r)]) == db.files[Row(r)]
  }

  /** The latest upload to the resource's key came from a PUT whose conditional commit did not succeed. */
  ghost predicate Unconfirmed(h: Hash, db: Db, jobs: seq<Job>, r: Resource) {
    jobs != [] &&
    var n := |jobs| - 1;
    var p := Serve(h, ServeAll(h, db, jobs[..n]), n, jobs[n].req, jobs[n].faults).1;
    if p.uploaded && p.req.res == r then p.req.verb.Put? && !Committed(p.stage)
    else Unconfirmed(h, db, jobs[..n], r)
  }

  /** Requests for other resources touch neither the row nor the object. */
  lemma {:induction false} OthersUntouched(h: Hash, db: Db, rid: nat, q: Request, faults: set<Stage>, r: Resource)
    requires q.Valid() && r.Valid() && q.res != r
    ensures var db2 := Serve(h, db, rid, q, faults).0;
            && Get(db2.files, Row(r)) == Get(db.files, Row(r))
            && Get(db2.objects, S3Key(r)) == Get(db.objects, S3Key(r))
  {
    ServeProgress(h, db, rid, q, faults);
    ResourcesNeverCollide(q.res, r);
  }

  /** A successful PUT or POST always leaves agreement; POST and DELETE never break it. */
  lemma {:induction false} WhoKeepsAgreement(h: Hash, db: Db, rid: nat, q: Request, faults: set<Stage>, r: Resource)
    requires q.Valid() && r.Valid()
    ensures var (db2, p) := Serve(h, db, rid, q, faults);
            && (q.res == r && !q.verb.Delete? && Committed(p.stage) ==> Agrees(h, db2, r))
            && (!q.verb.Put? && Agrees(h, db, r) ==> Agrees(h, db2, r))
  {
    ServeProgress(h, db, rid, q, faults);
    if q.res != r {
      OthersUntouched(h, db, rid, q, faults, r);
    }
  }

  /** A PUT that uploaded but did not commit leaves agreement exactly when there is no row or the row has its etag. */
  lemma {:induction false} FailedPutKeepsAgreementIff(h: Hash, db: Db, rid: nat, q: Request, faults: set<Stage>)
    requires q.Valid() && q.verb.Put?
    requires var p := Serve(h, db, rid, q, faults).1; p.uploaded && !Committed(p.stage)
    ensures var db2 := Serve(h, db, rid, q, faults).0;
            Agrees(h, db2, q.res) <==> Get(db.files, Row(q.res)) in {None, Some(h(q.body))}
  {
    ServeProgress(h, db, rid, q, faults);
  }

  /** A PUT with a stale If-Match is answered 409 and still replaces the object: the row no longer agrees. */
  lemma {:induction false} RefusedPutBreaksAgreement(h: Hash, r: Resource, stored: Bytes, body: Bytes, actor: string)
    requires h(stored) != h(body) && h(body) != ""
    ensures var before := Fresh(map[Row(r) := h(stored)], map[S3Key(r) := stored]);
            var (after, p) := Serve(h, before, 0, Request(Put, r, h(body), false, body, actor), {});
            && Agrees(h, before, r) && p.stage == Finished(409)
            && after.files == before.files && after.objects == map[S3Key(r) := body] && !Agrees(h, after, r)
  {
    var before := Fresh(map[Row(r) := h(stored)], map[S3Key(r) := stored]);
    var q := Request(Put, r, h(body), false, body, actor);
    var p := NewProc(q);
    var looked := p.(stage := Upload, oldEtag := h(stored), looked := Some(0));
    assert Serve(h, before, 0, q, {}) == RunToEnd(h, before, 0, p.(stage := Look), {})
        == RunToEnd(h, before, 0, looked, {});
    var db := StepProc(h, before, 0, looked, true).0;
    var ready := looked.(stage := Commit, uploaded := true);
    assert RunToEnd(h, before, 0, looked, {}) == RunToEnd(h, db, 0, ready, {});
    var done := ready.(stage := Finished(409));
    var refused := db.(log := db.log + [DecisionOf(h, 0, ready, false)]);
    assert StepProc(h, db, 0, ready, true) == (refused, done);
    assert RunToEnd(h, refused, 0, done, {}) == (refused, done);
    assert RunToEnd(h, db, 0, ready, {}) == (refused, done);
  }

  /** In serial runs a row and its object disagree only after an unconfirmed PUT. */
  lemma {:induction false} DisagreementMeansUnconfirmedPut(h: Hash, db: Db, jobs: seq<Job>, r: Resource)
    requires AllValid(jobs) && r.Valid() && Agrees(h, db, r)
    ensures Agrees(h, ServeAll(h, db, jobs), r) || Unconfirmed(h, db, jobs, r)
  {
    if jobs != [] {
      var n := |jobs| - 1;
      var mid, q, faults := ServeAll(h, db, jobs[..n]), jobs[n].req, jobs[n].faults;
      DisagreementMeansUnconfirmedPut(h, db, jobs[..n], r);
      WhoKeepsAgreement(h, mid, n, q, faults, r);
      ServeProgress(h, mid, n, q, faults);
      if q.res != r {
        OthersUntouched(h, mid, n, q, faults, r);
      }
    }
  }
}
