/**
 What each write request answers and does when it is served alone, as a table in the request's own terms: method,
 resource, headers, body, the row as it was, and which statements fail.
 */
module Answers {
  import opened Common
  import opened Resources
  import opened WriteProtocol
  import opened SerialWrites

  /** The answer, and the tables and objects it leaves. */
  datatype Reply = Reply(
    status: nat, files: Files, objects: map<string, Bytes>, audit: seq<AuditRow>, events: seq<Event>)

  /** Where a resource is kept. */
  function RowOf(res: Resource): RowKey {
    match res
    case Issue(project, id) => RowKey(project, id + ".md")
    case Attachment(project, id, name) => RowKey(project, id + "/" + name)
    case ProjectJson(project) => RowKey(project, "project.json")
  }

  function KeyOf(res: Resource): string {
    match res
    case Issue(project, id) => "projects/" + project + "/issues/" + id + ".md"
    case Attachment(project, id, name) => "projects/" + project + "/issues/" + id + "/" + name
    case ProjectJson(project) => "projects/" + project + "/project.json"
  }

  function Only(db: Db, status: nat): Reply {
    Reply(status, db.files, db.objects, db.audit, db.events)
  }

  /** The audit row and the event of a committed request, each unless its INSERT fails. */
  function Announced(db: Db, r: Reply, faults: set<Stage>, a: AuditRow, e: Event): Reply {
    r.(audit := db.audit + if Audit in faults then [] else [a], events := db.events + if Append in faults then [] else [e])
  }

  /** An etag as the audit log has it: the empty string is NULL. */
  function Logged(etag: Option<string>): Option<string> {
    if etag == Some("") then None else etag
  }

  function PutReply(h: Hash, db: Db, q: Request, faults: set<Stage>): Reply {
    var row, etag := RowOf(q.res), h(q.body);
    var was := if row in db.files then Some(db.files[row]) else None;
    var stored := db.objects[KeyOf(q.res) := q.body];
    if Guard in faults then Only(db, 403)
    else if !q.ifNoneMatchAny && q.ifMatch == "" then Only(db, 428)
    else if Upload in faults then Only(db, 500)
    else if Commit in faults then Only(db, 500).(objects := stored)
    else if (if q.ifNoneMatchAny then was != None else was != Some(q.ifMatch)) then Only(db, 409).(objects := stored)
    else
      var action := if q.res.Issue? then PutIssue else if q.res.Attachment? then PutAttachment else PutProjectJson;
      var op := if q.res.ProjectJson? then None else if q.ifNoneMatchAny then Some(Created) else Some(Updated);
      var status := if q.res.Attachment? && q.ifNoneMatchAny then 201 else 200;
      Announced(db, Only(db, status).(files := db.files[row := etag], objects := stored), faults,
                AuditRow(action, row, if Look in faults then None else Logged(was), Logged(Some(etag)), q.actor),
                Event(q.res, op, Some(etag), q.actor))
  }

  function PostReply(h: Hash, db: Db, q: Request, faults: set<Stage>): Reply {
    var row, etag := RowOf(q.res), h(q.body);
    var stored := db.objects[KeyOf(q.res) := q.body];
    if Guard in faults then Only(db, 403)
    else if Look in faults then Only(db, 500)
    else if row in db.files then Only(db, 409)
    else if Upload in faults then Only(db, 500)
    else if Commit in faults then Only(db, 500).(objects := stored)
    else
      Announced(db, Only(db, 201).(files := db.files[row := etag], objects := stored), faults,
                AuditRow(PostIssue, row, None, Logged(Some(etag)), q.actor), Event(q.res, Some(Created), Some(etag), q.actor))
  }

  function DeleteIssueReply(db: Db, q: Request, faults: set<Stage>): Reply {
    var row := RowOf(q.res);
    var was := if row in db.files then Some(db.files[row]) else None;
    if Guard in faults then Only(db, 403)
    else if q.ifMatch == "" then Only(db, 428)
    else if Commit in faults then Only(db, 500)
    else if was != Some(q.ifMatch) then Only(db, if was != None && Probe !in faults then 409 else 404)
    else
      var kept := if Sweep in faults then db.objects else db.objects - {KeyOf(q.res)};
      Announced(db, Only(db, 204).(files := db.files - {row}, objects := kept), faults,
                AuditRow(DeleteIssue, row, Some(q.ifMatch), None, q.actor), Event(q.res, Some(Deleted), None, q.actor))
  }

  function DeleteAttachmentReply(db: Db, q: Request, faults: set<Stage>): Reply {
    var row := RowOf(q.res);
    if Guard in faults then Only(db, 403)
    else if Commit in faults then Only(db, 500)
    else
      var kept := if Sweep in faults then db.objects else db.objects - {KeyOf(q.res)};
      Announced(db, Only(db, 204).(files := db.files - {row}, objects := kept), faults,
                AuditRow(DeleteAttachment, row, None, None, q.actor), Event(q.res, Some(Deleted), None, q.actor))
  }

  // ---------- serving alone gives these replies ----------

  /** What running a handler to its end from here replies. */
  function Replied(h: Hash, db: Db, rid: nat, p: Proc, faults: set<Stage>): Reply {
    var (db2, p2) := RunToEnd(h, db, rid, p, faults);
    Reply(if p2.stage.Finished? then p2.stage.status else 0, db2.files, db2.objects, db2.audit, db2.events)
  }

  lemma {:induction false} Goes(h: Hash, db: Db, rid: nat, p: Proc, faults: set<Stage>, db2: Db, p2: Proc)
    requires !p.stage.Finished? && StepProc(h, db, rid, p, p.stage !in faults) == (db2, p2)
    ensures Replied(h, db, rid, p, faults) == Replied(h, db2, rid, p2, faults)
  {
  }

  lemma {:induction false} Ends(h: Hash, db: Db, rid: nat, p: Proc, faults: set<Stage>)
    requires p.stage.Finished?
    ensures Replied(h, db, rid, p, faults) == Only(db, p.stage.status)
  {
  }

  /** Audit row and event. */
  lemma {:induction false} Announces(h: Hash, db: Db, rid: nat, p: Proc, faults: set<Stage>)
    requires p.stage.Audit?
    ensures Replied(h, db, rid, p, faults)
            == Announced(db, Only(db, p.req.SuccessStatus()), faults, AuditOf(h, p), EventOf(h, p.req))
  {
    var db2, p2 := StepProc(h, db, rid, p, p.stage !in faults).0, p.(stage := Append);
    Goes(h, db, rid, p, faults, db2, p2);
    var db3, p3 := StepProc(h, db2, rid, p2, p2.stage !in faults).0, p.(stage := Finished(p.req.SuccessStatus()));
    Goes(h, db2, rid, p2, faults, db3, p3);
    Ends(h, db3, rid, p3, faults);
    assert db.audit + [] == db.audit && db.events + [] == db.events;
  }

  /** The conditional statement of a PUT or POST that has uploaded, and the rest. */
  lemma {:induction false} Upserts(h: Hash, db: Db, rid: nat, p: Proc, faults: set<Stage>)
    requires p.stage.Commit? && !p.req.verb.Delete?
    ensures var q, was := p.req, Get(db.files, p.row);
            Replied(h, db, rid, p, faults) ==
              if Commit in faults then Only(db, 500)
              else if (if q.IsCreate() then was != None else was != Some(q.ifMatch)) then Only(db, 409)
              else Announced(db, Only(db, q.SuccessStatus()).(files := db.files[p.row := h(q.body)]), faults,
                             AuditOf(h, p), EventOf(h, q))
  {
    var (db2, p2) := StepProc(h, db, rid, p, p.stage !in faults);
    Goes(h, db, rid, p, faults, db2, p2);
    if p2.stage.Finished? {
      Ends(h, db2, rid, p2, faults);
    } else {
      Announces(h, db2, rid, p2, faults);
    }
  }

  /** The upload of a PUT or POST, and the rest. */
  lemma {:induction false} Uploads(h: Hash, db: Db, rid: nat, p: Proc, faults: set<Stage>)
    requires p.stage.Upload? && !p.req.verb.Delete?
    ensures var q, was, stored := p.req, Get(db.files, p.row), db.objects[p.s3Key := p.req.body];
            Replied(h, db, rid, p, faults) ==
              if Upload in faults then Only(db, 500)
              else if Commit in faults then Only(db, 500).(objects := stored)
              else if (if q.IsCreate() then was != None else was != Some(q.ifMatch)) then Only(db, 409).(objects := stored)
              else Announced(db, Only(db, q.SuccessStatus()).(files := db.files[p.row := h(q.body)], objects := stored),
                             faults, AuditOf(h, p), EventOf(h, q))
  {
    var (db2, p2) := StepProc(h, db, rid, p, p.stage !in faults);
    Goes(h, db, rid, p, faults, db2, p2);
    if p2.stage.Finished? {
      Ends(h, db2, rid, p2, faults);
    } else {
      Upserts(h, db2, rid, p2, faults);
    }
  }

  lemma {:induction false} KeptWhereTheyAre(res: Resource)
    ensures Row(res) == RowOf(res) && S3Key(res) == KeyOf(res)
  {
  }

  /** A PUT served alone. */
  lemma {:induction false} PutAnswers(h: Hash, db: Db, rid: nat, q: Request, faults: set<Stage>)
    requires q.Valid() && q.verb.Put?
    ensures Replied(h, db, rid, NewProc(q), faults) == PutReply(h, db, q, faults)
  {
    KeptWhereTheyAre(q.res);
    var p := NewProc(q);
    var (db2, p2) := StepProc(h, db, rid, p, Guard !in faults);
    Goes(h, db, rid, p, faults, db2, p2);
    if p2.stage.Finished? {
      Ends(h, db2, rid, p2, faults);
    } else {
      var (db3, p3) := StepProc(h, db2, rid, p2, Look !in faults);
      Goes(h, db2, rid, p2, faults, db3, p3);
      Uploads(h, db3, rid, p3, faults);
    }
  }

  /** A POST served alone. */
  lemma {:induction false} PostAnswers(h: Hash, db: Db, rid: nat, q: Request, faults: set<Stage>)
    requires q.Valid() && q.verb.Post?
    ensures Replied(h, db, rid, NewProc(q), faults) == PostReply(h, db, q, faults)
  {
    KeptWhereTheyAre(q.res);
    var p := NewProc(q);
    var (db2, p2) := StepProc(h, db, rid, p, Guard !in faults);
    Goes(h, db, rid, p, faults, db2, p2);
    if p2.stage.Finished? {
      Ends(h, db2, rid, p2, faults);
    } else {
      var (db3, p3) := StepProc(h, db2, rid, p2, Look !in faults);
      Goes(h, db2, rid, p2, faults, db3, p3);
      if p3.stage.Finished? {
        Ends(h, db3, rid, p3, faults);
      } else {
        Uploads(h, db3, rid, p3, faults);
      }
    }
  }

  /** The clean-up of a DELETE that took effect, and the rest. */
  lemma {:induction false} Sweeps(h: Hash, db: Db, rid: nat, p: Proc, faults: set<Stage>)
    requires p.stage.Sweep?
    ensures Replied(h, db, rid, p, faults)
            == Announced(db, Only(db, p.req.SuccessStatus()).(
                               objects := if Sweep in faults then db.objects else db.objects - {p.s3Key}),
                         faults, AuditOf(h, p), EventOf(h, p.req))
  {
    var (db2, p2) := StepProc(h, db, rid, p, p.stage !in faults);
    Goes(h, db, rid, p, faults, db2, p2);
    Announces(h, db2, rid, p2, faults);
  }

  /** A DELETE served alone. */
  lemma {:induction false} DeleteAnswers(h: Hash, db: Db, rid: nat, q: Request, faults: set<Stage>)
    requires q.Valid() && q.verb.Delete?
    ensures Replied(h, db, rid, NewProc(q), faults)
            == if q.res.Issue? then DeleteIssueReply(db, q, faults) else DeleteAttachmentReply(db, q, faults)
  {
    KeptWhereTheyAre(q.res);
    var p := NewProc(q);
    var (db2, p2) := StepProc(h, db, rid, p, Guard !in faults);
    Goes(h, db, rid, p, faults, db2, p2);
    if p2.stage.Finished? {
      Ends(h, db2, rid, p2, faults);
    } else {
      var (db3, p3) := StepProc(h, db2, rid, p2, Commit !in faults);
      Goes(h, db2, rid, p2, faults, db3, p3);
      if p3.stage.Finished? {
        Ends(h, db3, rid, p3, faults);
      } else if p3.stage.Sweep? {
        Sweeps(h, db3, rid, p3, faults);
      } else {
        var (db4, p4) := StepProc(h, db3, rid, p3, Probe !in faults);
        Goes(h, db3, rid, p3, faults, db4, p4);
        Ends(h, db4, rid, p4, faults);
      }
    }
  }

  /** Which requests get a handler at all: a well-formed resource, and a method it has. */
  lemma {:induction false} HandledIff(h: Hash, s: Sys, q: Request)
    ensures |Next(h, s, Arrive(q)).procs| > |s.procs| <==>
              && |q.res.project| == 36
              && match q.res
                 case Issue(_, id) => |id| == 4 && forall i :: 0 <= i < |id| ==> '0' <= id[i] <= '9'
                 case Attachment(_, id, name) =>
                   |id| == 4 && (forall i :: 0 <= i < |id| ==> '0' <= id[i] <= '9') && name != "" && q.verb != Post
                 case ProjectJson(_) => q.verb == Put
  {
    if !q.res.ProjectJson? {
      IssueIdIff(q.res.id);
    }
  }
}
