/**
 The write handlers as interleaved processes over the `files` table, S3, `audit_log` and `events`.
 Each handler is a sequence of statements; other requests may run between any two of them.
 */
module WriteProtocol {
  import opened Common
  import opened Resources

  /** Lower-case hex SHA-256, of which only "never empty" is ever used. */
  type Hash = Bytes -> string

  ghost predicate IsHash(h: Hash) {
    forall b: Bytes :: h(b) != ""
  }

  type Files = map<RowKey, string>

  datatype Verb = Put | Post | Delete

  /** `ifMatch` is the raw header, empty when missing; `ifNoneMatchAny` says that If-None-Match is exactly "*". */
  datatype Request = Request(
    verb: Verb, res: Resource, ifMatch: string, ifNoneMatchAny: bool, body: Bytes, actor: string)
  {
    /** The routes that exist: PUT of anything, POST of issues, DELETE of issues and attachments. */
    predicate Valid() {
      res.Valid() && (verb.Post? ==> res.Issue?) && (verb.Delete? ==> !res.ProjectJson?)
    }

    predicate IsCreate() {
      verb.Post? || (verb.Put? && ifNoneMatchAny)
    }

    /** Answered with 428: a conditional request without its condition. */
    predicate LacksCondition() {
      ifMatch == "" && !IsCreate() && (verb.Put? || (verb.Delete? && res.Issue?))
    }

    function Condition(): Condition {
      if verb.Delete? && res.Attachment? then Always
      else if IsCreate() then IfAbsent
      else IfEtag(ifMatch)
    }

    /** The etag the row gets, or None to delete it. */
    function NewEtag(h: Hash): Option<string> {
      if verb.Delete? then None else Some(h(body))
    }

    function Action(): Action {
      match res
      case Issue(_, _) => if verb.Put? then PutIssue else if verb.Post? then PostIssue else DeleteIssue
      case Attachment(_, _, _) => if verb.Delete? then DeleteAttachment else PutAttachment
      case ProjectJson(_) => PutProjectJson
    }

    function SuccessStatus(): nat {
      match verb
      case Post => 201
      case Delete => 204
      case Put => if res.Attachment? && IsCreate() then 201 else 200
    }
  }

  datatype Condition = IfAbsent | IfEtag(etag: string) | Always {
    predicate Holds(current: Option<string>) {
      match this
      case IfAbsent => current.None?
      case IfEtag(e) => current == Some(e)
      case Always => true
    }
  }

  datatype ChangeOp = Created | Updated | Deleted

  /** issueChanged, attachmentChanged or projectMetaChanged by kind of resource; only the last has no op. */
  datatype Event = Event(res: Resource, op: Option<ChangeOp>, etag: Option<string>, actor: string)

  datatype Action = PutIssue | PostIssue | DeleteIssue | PutAttachment | DeleteAttachment | PutProjectJson

  /** `row` stands for the columns project_id and path. */
  datatype AuditRow = AuditRow(
    action: Action, row: RowKey, before: Option<string>, after: Option<string>, actor: string)

  /** The empty string is stored as NULL. */
  function NullStr(s: string): Option<string> {
    if s == "" then None else Some(s)
  }

  function EventOf(h: Hash, q: Request): Event {
    var op := if q.verb.Delete? then Deleted else if q.IsCreate() then Created else Updated;
    Event(q.res, if q.res.ProjectJson? then None else Some(op), q.NewEtag(h), q.actor)
  }

  function AuditOf(h: Hash, p: Proc): AuditRow {
    var q := p.req;
    var before := if q.verb.Delete? && q.res.Issue? then q.ifMatch else p.oldEtag;
    var after := match q.NewEtag(h) case None => None case Some(e) => NullStr(e);
    AuditRow(q.Action(), p.row, NullStr(before), after, q.actor)
  }

  /**
   A handler's next statement. Guard stands for all checks before the database is touched;
   Probe is the existence query of DeleteFile after a DELETE that matched no row.
   */
  datatype Stage = Guard | Look | Upload | Commit | Probe | Sweep | Audit | Append | Finished(status: nat)

  /**
   A request in progress, with the handler's local variables. `looked` is history: how many decisions there were when
   a PUT looked up the old etag, if its lookup succeeded.
   */
  datatype Proc = Proc(
    req: Request, row: RowKey, s3Key: string, stage: Stage, oldEtag: string, uploaded: bool, looked: Option<nat>)

  /** History: one entry per request whose condition was decided, in the order of the deciding statements. */
  datatype Decision = Decision(
    rid: nat, req: Request, row: RowKey, cond: Condition, write: Option<string>, granted: bool)

  /** History: what happened to the objects, by which request. */
  datatype Transfer = Uploaded(rid: nat, key: string, body: Bytes) | Swept(rid: nat, key: string)

  /** Shared state. `lost` and `unlogged` (events and audit rows whose INSERT failed), `log` and `transfers` are history. */
  datatype Db = Db(
    files: Files, objects: map<string, Bytes>, audit: seq<AuditRow>,
    events: seq<Event>, lost: seq<Event>, log: seq<Decision>, transfers: seq<Transfer>, unlogged: seq<AuditRow>)

  function DecisionOf(h: Hash, rid: nat, p: Proc, granted: bool): Decision {
    Decision(rid, p.req, p.row, p.req.Condition(), p.req.NewEtag(h), granted)
  }

  function Store(files: Files, row: RowKey, value: Option<string>): Files {
    match value
    case None => files - {row}
    case Some(e) => files[row := e]
  }

  /** One statement of one handler; `ok` is false when the statement fails (or the guard refuses). */
  function StepProc(h: Hash, db: Db, rid: nat, p: Proc, ok: bool): (Db, Proc)
    requires !p.stage.Finished?
  {
    var q := p.req;
    var current := Get(db.files, p.row);
    match p.stage
    case Guard =>
      (db, p.(stage := if !ok then Finished(403)
                       else if q.LacksCondition() then Finished(428)
                       else if q.verb.Delete? then Commit else Look))
    case Look =>
      if q.verb.Put? then
        (db, p.(oldEtag := if ok && current.Some? then current.value else "", stage := Upload,
                looked := if ok then Some(|db.log|) else None))
      else if !ok then
        (db, p.(stage := Finished(500)))
      else if current.Some? then
        (db.(log := db.log + [DecisionOf(h, rid, p, false)]), p.(stage := Finished(409)))
      else
        (db, p.(stage := Upload))
    case Upload =>
      if !ok then (db, p.(stage := Finished(500)))
      else
        (db.(objects := db.objects[p.s3Key := q.body], transfers := db.transfers + [Uploaded(rid, p.s3Key, q.body)]),
         p.(stage := Commit, uploaded := true))
    case Commit =>
      if !ok then
        (db, p.(stage := Finished(500)))
      else if q.Condition().Holds(current) then
        (db.(files := Store(db.files, p.row, q.NewEtag(h)), log := db.log + [DecisionOf(h, rid, p, true)]),
         p.(stage := if q.verb.Delete? then Sweep else Audit))
      else
        (db.(log := db.log + [DecisionOf(h, rid, p, false)]),
         p.(stage := if q.verb.Delete? then Probe else Finished(409)))
    case Probe =>
      (db, p.(stage := Finished(if ok && current.Some? then 409 else 404)))
    case Sweep =>
      (if ok then db.(objects := db.objects - {p.s3Key}, transfers := db.transfers + [Swept(rid, p.s3Key)]) else db,
       p.(stage := Audit))
    case Audit =>
      (if ok then db.(audit := db.audit + [AuditOf(h, p)]) else db.(unlogged := db.unlogged + [AuditOf(h, p)]),
       p.(stage := Append))
    case Append =>
      var e := EventOf(h, q);
      (if ok then db.(events := db.events + [e]) else db.(lost := db.lost + [e]),
       p.(stage := Finished(q.SuccessStatus())))
  }

  function NewProc(q: Request): Proc {
    Proc(q, Row(q.res), S3Key(q.res), Guard, "", false, None)
  }

  // ---------- interleaved runs ----------

  datatype Sys = Sys(db: Db, procs: seq<Proc>)

  datatype Step = Arrive(req: Request) | Run(rid: nat, ok: bool)

  /** A step that is not possible in `s` changes nothing. */
  function Next(h: Hash, s: Sys, st: Step): Sys {
    match st
    case Arrive(q) => if q.Valid() then s.(procs := s.procs + [NewProc(q)]) else s
    case Run(i, ok) =>
      if i < |s.procs| && !s.procs[i].stage.Finished? then
        var (db, p) := StepProc(h, s.db, i, s.procs[i], ok);
        Sys(db, s.procs[i := p])
      else s
  }

  function Exec(h: Hash, s: Sys, steps: seq<Step>): Sys {
    if steps == [] then s else Next(h, Exec(h, s, steps[..|steps| - 1]), steps[|steps| - 1])
  }

  function Start(files: Files, objects: map<string, Bytes>): Sys {
    Sys(Db(files, objects, [], [], [], [], [], []), [])
  }

  lemma {:induction false} ExecSnoc(h: Hash, s: Sys, steps: seq<Step>, st: Step)
    ensures Exec(h, s, steps + [st]) == Next(h, Exec(h, s, steps), st)
  {
    assert (steps + [st])[..|steps|] == steps;
  }

  lemma {:induction false} ExecSplit(h: Hash, s: Sys, a: seq<Step>, b: seq<Step>)
    ensures Exec(h, s, a + b) == Exec(h, Exec(h, s, a), b)
  {
    if b == [] {
      assert a + b == a;
    } else {
      var n := |b| - 1;
      assert a + b == (a + b[..n]) + [b[n]] && b == b[..n] + [b[n]];
      ExecSnoc(h, s, a + b[..n], b[n]);
      ExecSplit(h, s, a, b[..n]);
    }
  }
}
