/**
 The storage statements and the write handlers as code over mutable tables. Each handler, run without
 interruption, is proved to do what its process in WriteProtocol does; `faults` names the statements that fail.
 */
module Handlers {
  import opened Common
  import opened Resources
  import opened WriteProtocol
  import opened SerialWrites
  import A = Answers

  datatype DbError = NoError | Failed | ETagConflict | NoRows

  class Server {
    const hash: Hash
    var files: Files
    var objects: map<string, Bytes>
    var audit: seq<AuditRow>
    var events: seq<Event>
    ghost var lost: seq<Event>
    ghost var log: seq<Decision>
    ghost var transfers: seq<Transfer>
    ghost var unlogged: seq<AuditRow>

    constructor (hash: Hash, files: Files, objects: map<string, Bytes>)
      ensures this.hash == hash && View() == Start(files, objects).db
    {
      this.hash := hash;
      this.files, this.objects, audit, events := files, objects, [], [];
      lost, log, transfers, unlogged := [], [], [], [];
    }

    ghost function View(): Db
      reads this
    {
      Db(files, objects, audit, events, lost, log, transfers, unlogged)
    }

    // ---------- internal/storage ----------

    method FileExists(row: RowKey, ok: bool) returns (etag: string, exists': bool, err: DbError)
      ensures err == NoError <==> ok
      ensures exists' <==> ok && row in files
      ensures etag == if ok && row in files then files[row] else ""
    {
      if !ok {
        return "", false, Failed;
      }
      if row in files {
        return files[row], true, NoError;
      }
      return "", false, NoError;
    }

    /** An update of the row holding `ifMatchEtag`, or, when that is empty, an insert of a new row. */
    method UpsertFile(row: RowKey, etag: string, ifMatchEtag: string, ok: bool) returns (err: DbError)
      modifies this`files
      ensures var cond := if ifMatchEtag == "" then IfAbsent else IfEtag(ifMatchEtag);
              var granted := ok && cond.Holds(Get(old(files), row));
              && err == (if !ok then Failed else if granted then NoError else ETagConflict)
              && files == if granted then old(files)[row := etag] else old(files)
    {
      if !ok {
        return Failed;
      }
      if ifMatchEtag != "" {
        if row in files && files[row] == ifMatchEtag {
          files := files[row := etag];
          return NoError;
        }
        return ETagConflict;
      }
      if row !in files {
        files := files[row := etag];
        return NoError;
      }
      return ETagConflict;
    }

    /** The conditional DELETE, then, when it matched nothing, the existence probe. */
    method DeleteFile(row: RowKey, ifMatchEtag: string, ok: bool, probeOk: bool) returns (err: DbError)
      modifies this`files
      ensures var granted := ok && Get(old(files), row) == Some(ifMatchEtag);
              && files == (if granted then old(files) - {row} else old(files))
              && err == (if !ok then Failed else if granted then NoError
                         else if probeOk && row in old(files) then ETagConflict else NoRows)
    {
      if !ok {
        return Failed;
      }
      if row in files && files[row] == ifMatchEtag {
        files := files - {row};
        return NoError;
      }
      var exists' := false;
      if probeOk {
        exists' := row in files;
      }
      if !exists' {
        return NoRows;
      }
      return ETagConflict;
    }

    method WriteAuditLog(actor: string, action: Action, row: RowKey, etagBefore: string, etagAfter: string, ok: bool)
      modifies this`audit, this`unlogged
      ensures unlogged == if ok then old(unlogged)
                          else old(unlogged) + [AuditRow(action, row, NullStr(etagBefore), NullStr(etagAfter), actor)]
      ensures audit == if ok then old(audit) + [AuditRow(action, row, NullStr(etagBefore), NullStr(etagAfter), actor)]
                       else old(audit)
    {
      if ok {
        audit := audit + [AuditRow(action, row, NullStr(etagBefore), NullStr(etagAfter), actor)];
      } else {
        unlogged := unlogged + [AuditRow(action, row, NullStr(etagBefore), NullStr(etagAfter), actor)];
      }
    }

    method AppendEvent(e: Event, ok: bool)
      modifies this`events, this`lost
      ensures events == if ok then old(events) + [e] else old(events)
      ensures lost == if ok then old(lost) else old(lost) + [e]
    {
      if ok {
        events := events + [e];
      } else {
        lost := lost + [e];
      }
    }

    // ---------- internal/api/v1 ----------

    /** The process reached from `p` on the current tables, run to its end, is where the handler must arrive. */
    ghost predicate OnTrack(rid: nat, p: Proc, faults: set<Stage>, goal: (Db, Proc))
      reads this
    {
      RunToEnd(hash, View(), rid, p, faults) == goal
    }

    /** The common end of every handler: audit row, then event. */
    method Announce(q: Request, action: Action, etagBefore: string, e: Event, faults: set<Stage>, ghost rid: nat,
                    ghost p: Proc, ghost goal: (Db, Proc)) returns (ghost done: Proc)
      requires OnTrack(rid, p, faults, goal) && p.stage.Audit? && p.req == q && p.row == Row(q.res)
      requires action == q.Action() && e == EventOf(hash, q)
      requires AuditOf(hash, p).before == NullStr(etagBefore)
      modifies this`audit, this`unlogged, this`events, this`lost
      ensures (View(), done) == goal && done == p.(stage := Finished(q.SuccessStatus()))
    {
      var etagAfter := if e.etag.Some? then e.etag.value else "";
      WriteAuditLog(q.actor, action, Row(q.res), etagBefore, etagAfter, Audit !in faults);
      done := p.(stage := Append);
      assert OnTrack(rid, done, faults, goal);
      AppendEvent(e, Append !in faults);
      done := p.(stage := Finished(q.SuccessStatus()));
      assert OnTrack(rid, done, faults, goal);
    }

    /** PUT of an issue, an attachment or project.json. */
    method PutHandler(q: Request, faults: set<Stage>, ghost rid: nat) returns (status: nat)
      requires q.Valid() && q.verb.Put?
      modifies this
      ensures var (db, p) := Serve(hash, old(View()), rid, q, faults);
              View() == db && p.stage == Finished(status)
      ensures A.Reply(status, files, objects, audit, events) == A.PutReply(hash, old(View()), q, faults)
    {
      ghost var goal := Serve(hash, View(), rid, q, faults);
      A.PutAnswers(hash, View(), rid, q, faults);
      ghost var p := NewProc(q);
      if Guard in faults {
        assert OnTrack(rid, p.(stage := Finished(403)), faults, goal);
        return 403;
      }
      var isCreate := q.ifNoneMatchAny;
      if !isCreate && q.ifMatch == "" {
        assert OnTrack(rid, p.(stage := Finished(428)), faults, goal);
        return 428;
      }
      p := p.(stage := Look);
      assert OnTrack(rid, p, faults, goal);
      var newETag := hash(q.body);
      var s3Key, row := S3Key(q.res), Row(q.res);
      var oldETag, _, _ := FileExists(row, Look !in faults);
      p := p.(stage := Upload, oldEtag := oldETag, looked := if Look !in faults then Some(|log|) else None);
      assert OnTrack(rid, p, faults, goal);
      status, p := StoreObject(q, s3Key, faults, rid, p, goal);
      if status != 0 {
        return;
      }
      var matchEtag := "";
      if !isCreate {
        matchEtag := q.ifMatch;
      }
      status, p := CommitUpsert(q, row, newETag, matchEtag, faults, rid, p, goal);
      if status != 0 {
        return;
      }
      var op := if isCreate then Created else Updated;
      var e := Event(q.res, if q.res.ProjectJson? then None else Some(op), Some(newETag), q.actor);
      var action := match q.res
        case Issue(_, _) => PutIssue
        case Attachment(_, _, _) => PutAttachment
        case ProjectJson(_) => PutProjectJson;
      p := Announce(q, action, oldETag, e, faults, rid, p, goal);
      status := if isCreate && q.res.Attachment? then 201 else 200;
    }

    /** The upload and its error answer; 0 means go on. */
    method StoreObject(q: Request, s3Key: string, faults: set<Stage>, ghost rid: nat, ghost p: Proc, ghost goal: (Db, Proc))
      returns (status: nat, ghost p2: Proc)
      requires OnTrack(rid, p, faults, goal) && p.stage.Upload? && p.req == q && p.s3Key == s3Key
      modifies this`objects, this`transfers
      ensures if status == 0 then p2 == p.(stage := Commit, uploaded := true) && OnTrack(rid, p2, faults, goal)
              else View() == goal.0 && goal.1.stage == Finished(status)
    {
      if Upload in faults {
        p2 := p.(stage := Finished(500));
        assert OnTrack(rid, p2, faults, goal);
        return 500, p2;
      }
      objects := objects[s3Key := q.body];
      transfers := transfers + [Uploaded(rid, s3Key, q.body)];
      return 0, p.(stage := Commit, uploaded := true);
    }

    /** The UpsertFile call and its error answers; 0 means go on. */
    method CommitUpsert(q: Request, row: RowKey, etag: string, matchEtag: string, faults: set<Stage>, ghost rid: nat,
                        ghost p: Proc, ghost goal: (Db, Proc)) returns (status: nat, ghost p2: Proc)
      requires OnTrack(rid, p, faults, goal) && p.stage.Commit? && p.req == q && !q.verb.Delete?
      requires row == p.row && etag == hash(q.body)
      requires q.Condition() == if matchEtag == "" then IfAbsent else IfEtag(matchEtag)
      modifies this`files, this`log
      ensures if status == 0 then p2 == p.(stage := Audit) && OnTrack(rid, p2, faults, goal)
              else View() == goal.0 && goal.1.stage == Finished(status)
    {
      var err := UpsertFile(row, etag, matchEtag, Commit !in faults);
      if err == ETagConflict {
        log := log + [DecisionOf(hash, rid, p, false)];
        p2 := p.(stage := Finished(409));
        assert OnTrack(rid, p2, faults, goal);
        return 409, p2;
      } else if err != NoError {
        p2 := p.(stage := Finished(500));
        assert OnTrack(rid, p2, faults, goal);
        return 500, p2;
      }
      log := log + [DecisionOf(hash, rid, p, true)];
      return 0, p.(stage := Audit);
    }

    method PostIssueHandler(q: Request, faults: set<Stage>, ghost rid: nat) returns (status: nat)
      requires q.Valid() && q.verb.Post?
      modifies this
      ensures var (db, p) := Serve(hash, old(View()), rid, q, faults);
              View() == db && p.stage == Finished(status)
      ensures A.Reply(status, files, objects, audit, events) == A.PostReply(hash, old(View()), q, faults)
    {
      ghost var goal := Serve(hash, View(), rid, q, faults);
      A.PostAnswers(hash, View(), rid, q, faults);
      ghost var p := NewProc(q);
      if Guard in faults {
        assert OnTrack(rid, p.(stage := Finished(403)), faults, goal);
        return 403;
      }
      p := p.(stage := Look);
      assert OnTrack(rid, p, faults, goal);
      var row := Row(q.res);
      var _, exists', err := FileExists(row, Look !in faults);
      if err != NoError {
        assert OnTrack(rid, p.(stage := Finished(500)), faults, goal);
        return 500;
      }
      if exists' {
        log := log + [DecisionOf(hash, rid, p, false)];
        assert OnTrack(rid, p.(stage := Finished(409)), faults, goal);
        return 409;
      }
      p := p.(stage := Upload);
      assert OnTrack(rid, p, faults, goal);
      var newETag := hash(q.body);
      var s3Key := S3Key(q.res);
      status, p := StoreObject(q, s3Key, faults, rid, p, goal);
      if status != 0 {
        return;
      }
      status, p := CommitUpsert(q, row, newETag, "", faults, rid, p, goal);
      if status != 0 {
        return;
      }
      p := Announce(q, PostIssue, "", Event(q.res, Some(Created), Some(newETag), q.actor), faults, rid, p, goal);
      status := 201;
    }

    method DeleteIssueHandler(q: Request, faults: set<Stage>, ghost rid: nat) returns (status: nat)
      requires q.Valid() && q.verb.Delete? && q.res.Issue?
      modifies this
      ensures var (db, p) := Serve(hash, old(View()), rid, q, faults);
              View() == db && p.stage == Finished(status)
      ensures A.Reply(status, files, objects, audit, events) == A.DeleteIssueReply(old(View()), q, faults)
    {
      ghost var goal := Serve(hash, View(), rid, q, faults);
      A.DeleteAnswers(hash, View(), rid, q, faults);
      ghost var p := NewProc(q);
      if Guard in faults {
        assert OnTrack(rid, p.(stage := Finished(403)), faults, goal);
        return 403;
      }
      if q.ifMatch == "" {
        assert OnTrack(rid, p.(stage := Finished(428)), faults, goal);
        return 428;
      }
      p := p.(stage := Commit);
      assert OnTrack(rid, p, faults, goal);
      status, p := CommitDelete(q, faults, rid, p, goal);
      if status != 0 {
        return;
      }
      p := SweepObject(q, faults, rid, p, goal);
      p := Announce(q, DeleteIssue, q.ifMatch, Event(q.res, Some(Deleted), None, q.actor), faults, rid, p, goal);
      status := 204;
    }

    /** The DeleteFile call and its error answers; 0 means go on. */
    method CommitDelete(q: Request, faults: set<Stage>, ghost rid: nat, ghost p: Proc, ghost goal: (Db, Proc))
      returns (status: nat, ghost p2: Proc)
      requires OnTrack(rid, p, faults, goal) && p.stage.Commit? && p.req == q && q.verb.Delete? && q.res.Issue?
      requires p.row == Row(q.res)
      modifies this`files, this`log
      ensures if status == 0 then p2 == p.(stage := Sweep) && OnTrack(rid, p2, faults, goal)
              else View() == goal.0 && goal.1.stage == Finished(status)
    {
      var err := DeleteFile(Row(q.res), q.ifMatch, Commit !in faults, Probe !in faults);
      if err == Failed {
        p2 := p.(stage := Finished(500));
        assert OnTrack(rid, p2, faults, goal);
        return 500, p2;
      } else if err == NoError {
        log := log + [DecisionOf(hash, rid, p, true)];
        return 0, p.(stage := Sweep);
      }
      log := log + [DecisionOf(hash, rid, p, false)];
      p2 := p.(stage := Probe);
      assert OnTrack(rid, p2, faults, goal);
      status := if err == ETagConflict then 409 else 404;
      p2 := p.(stage := Finished(status));
      assert OnTrack(rid, p2, faults, goal);
    }

    /** Best-effort removal of the object of a deleted row. */
    method SweepObject(q: Request, faults: set<Stage>, ghost rid: nat, ghost p: Proc, ghost goal: (Db, Proc))
      returns (ghost p2: Proc)
      requires OnTrack(rid, p, faults, goal) && p.stage.Sweep? && p.s3Key == S3Key(q.res)
      modifies this`objects, this`transfers
      ensures p2 == p.(stage := Audit) && OnTrack(rid, p2, faults, goal)
    {
      if Sweep !in faults {
        objects := objects - {S3Key(q.res)};
        transfers := transfers + [Swept(rid, S3Key(q.res))];
      }
      p2 := p.(stage := Audit);
    }

    /** DELETE of an attachment, which has no condition and does not look at the number of rows. */
    method DeleteAttachmentHandler(q: Request, faults: set<Stage>, ghost rid: nat) returns (status: nat)
      requires q.Valid() && q.verb.Delete? && q.res.Attachment?
      modifies this
      ensures var (db, p) := Serve(hash, old(View()), rid, q, faults);
              View() == db && p.stage == Finished(status)
      ensures A.Reply(status, files, objects, audit, events) == A.DeleteAttachmentReply(old(View()), q, faults)
    {
      ghost var goal := Serve(hash, View(), rid, q, faults);
      A.DeleteAnswers(hash, View(), rid, q, faults);
      ghost var p := NewProc(q);
      if Guard in faults {
        assert OnTrack(rid, p.(stage := Finished(403)), faults, goal);
        return 403;
      }
      p := p.(stage := Commit);
      assert OnTrack(rid, p, faults, goal);
      if Commit in faults {
        assert OnTrack(rid, p.(stage := Finished(500)), faults, goal);
        return 500;
      }
      files := files - {Row(q.res)};
      log := log + [DecisionOf(hash, rid, p, true)];
      p := p.(stage := Sweep);
      assert OnTrack(rid, p, faults, goal);
      p := SweepObject(q, faults, rid, p, goal);
      p := Announce(q, DeleteAttachment, "", Event(q.res, Some(Deleted), None, q.actor), faults, rid, p, goal);
      status := 204;
    }
  }
}
