/**
 Runs that overlap, showing which serial guarantees they lose. Each lemma hands back the run.
 */
module Races {
  import opened Common
  import opened Resources
  import opened WriteProtocol
  import opened Rebuild

  /** A run under construction: `steps` leads from `start` to `now`. */
  datatype Story = Story(start: Sys, steps: seq<Step>, now: Sys) {
    ghost predicate Told(h: Hash) {
      Exec(h, start, steps) == now
    }
  }

  lemma {:induction false} Begin(h: Hash, s: Sys) returns (y: Story)
    ensures y.Told(h) && y.start == y.now == s
  {
    y := Story(s, [], s);
  }

  lemma {:induction false} Arrives(h: Hash, x: Story, q: Request) returns (y: Story)
    requires x.Told(h) && q.Valid()
    ensures y.Told(h) && y.start == x.start && y.now == Sys(x.now.db, x.now.procs + [NewProc(q)])
  {
    y := Story(x.start, x.steps + [Arrive(q)], Next(h, x.now, Arrive(q)));
    ExecSnoc(h, x.start, x.steps, Arrive(q));
  }

  /** One statement of request `rid`, not failing. */
  lemma {:induction false} Runs(h: Hash, x: Story, rid: nat, db: Db, p: Proc) returns (y: Story)
    requires x.Told(h) && rid < |x.now.procs| && !x.now.procs[rid].stage.Finished?
    requires StepProc(h, x.now.db, rid, x.now.procs[rid], true) == (db, p)
    ensures y.Told(h) && y.start == x.start && y.now == Sys(db, x.now.procs[rid := p])
  {
    var st := Run(rid, true);
    y := Story(x.start, x.steps + [st], Next(h, x.now, st));
    ExecSnoc(h, x.start, x.steps, st);
  }

  /** A PUT or POST whose row's lookup and upload succeed, up to its commit. */
  lemma {:induction false} UpToCommit(h: Hash, x: Story, rid: nat, q: Request) returns (y: Story)
    requires x.Told(h) && rid < |x.now.procs| && x.now.procs[rid] == NewProc(q)
    requires !q.verb.Delete? && !q.LacksCondition() && (q.verb.Post? ==> Row(q.res) !in x.now.db.files)
    ensures y.Told(h) && y.start == x.start
    ensures y.now.db == x.now.db.(objects := x.now.db.objects[S3Key(q.res) := q.body],
                                  transfers := x.now.db.transfers + [Uploaded(rid, S3Key(q.res), q.body)])
    ensures |y.now.procs| == |x.now.procs| && y.now.procs == x.now.procs[rid := y.now.procs[rid]]
    ensures var p := y.now.procs[rid]; p == NewProc(q).(stage := Commit, oldEtag := p.oldEtag, uploaded := true, looked := p.looked)
    ensures var files := x.now.db.files;
            y.now.procs[rid].oldEtag == if q.verb.Put? && Row(q.res) in files then files[Row(q.res)] else ""
  {
    var db, p := x.now.db, x.now.procs[rid];
    y := Runs(h, x, rid, db, p.(stage := Look));
    p := StepProc(h, db, rid, y.now.procs[rid], true).1;
    y := Runs(h, y, rid, db, p);
    db := db.(objects := db.objects[p.s3Key := q.body], transfers := db.transfers + [Uploaded(rid, p.s3Key, q.body)]);
    y := Runs(h, y, rid, db, p.(stage := Commit, uploaded := true));
  }

  /** A granted commit. */
  lemma {:induction false} Commits(h: Hash, x: Story, rid: nat) returns (y: Story)
    requires x.Told(h) && rid < |x.now.procs| && x.now.procs[rid].stage.Commit?
    requires var p := x.now.procs[rid]; p.req.Condition().Holds(Get(x.now.db.files, p.row))
    ensures y.Told(h) && y.start == x.start
    ensures var p, db := x.now.procs[rid], x.now.db;
            y.now == Sys(db.(files := Store(db.files, p.row, p.req.NewEtag(h)),
                             log := db.log + [DecisionOf(h, rid, p, true)]),
                         x.now.procs[rid := p.(stage := if p.req.verb.Delete? then Sweep else Audit)])
  {
    var (db, p) := StepProc(h, x.now.db, rid, x.now.procs[rid], true);
    y := Runs(h, x, rid, db, p);
  }

  /** A DELETE that matches no row. */
  lemma {:induction false} Refused(h: Hash, x: Story, rid: nat) returns (y: Story)
    requires x.Told(h) && rid < |x.now.procs| && x.now.procs[rid].stage.Commit?
    requires var p := x.now.procs[rid]; p.req.verb.Delete? && !p.req.Condition().Holds(Get(x.now.db.files, p.row))
    ensures y.Told(h) && y.start == x.start
    ensures var p, db := x.now.procs[rid], x.now.db;
            y.now == Sys(db.(log := db.log + [DecisionOf(h, rid, p, false)]), x.now.procs[rid := p.(stage := Probe)])
  {
    var (db, p) := StepProc(h, x.now.db, rid, x.now.procs[rid], true);
    y := Runs(h, x, rid, db, p);
  }

  /** Audit and append of a committed request. */
  lemma {:induction false} Announces(h: Hash, x: Story, rid: nat) returns (y: Story)
    requires x.Told(h) && rid < |x.now.procs| && x.now.procs[rid].stage.Audit?
    ensures y.Told(h) && y.start == x.start
    ensures var p, db := x.now.procs[rid], x.now.db;
            y.now == Sys(db.(audit := db.audit + [AuditOf(h, p)], events := db.events + [EventOf(h, p.req)]),
                         x.now.procs[rid := p.(stage := Finished(p.req.SuccessStatus()))])
  {
    var p, db := x.now.procs[rid], x.now.db;
    db := db.(audit := db.audit + [AuditOf(h, p)]);
    y := Runs(h, x, rid, db, p.(stage := Append));
    y := Runs(h, y, rid, db.(events := db.events + [EventOf(h, p.req)]), p.(stage := Finished(p.req.SuccessStatus())));
  }

  lemma {:induction false} AnnouncesBoth(h: Hash, x: Story, i: nat, j: nat) returns (y: Story)
    requires x.Told(h) && i < |x.now.procs| && j < |x.now.procs| && i != j
    requires x.now.procs[i].stage.Audit? && x.now.procs[j].stage.Audit?
    ensures y.Told(h) && y.start == x.start
    ensures var (a, b, db) := (x.now.procs[i], x.now.procs[j], x.now.db);
            y.now == Sys(db.(audit := db.audit + [AuditOf(h, a)] + [AuditOf(h, b)],
                             events := db.events + [EventOf(h, a.req)] + [EventOf(h, b.req)]),
                         x.now.procs[i := a.(stage := Finished(a.req.SuccessStatus()))]
                                    [j := b.(stage := Finished(b.req.SuccessStatus()))])
  {
    y := Announces(h, x, i);
    y := Announces(h, y, j);
  }

  /** Commit, audit row and event of a PUT or POST. */
  lemma {:induction false} CommitsAndAnnounces(h: Hash, x: Story, rid: nat) returns (y: Story)
    requires x.Told(h) && rid < |x.now.procs| && x.now.procs[rid].stage.Commit? && !x.now.procs[rid].req.verb.Delete?
    requires var p := x.now.procs[rid]; p.req.Condition().Holds(Get(x.now.db.files, p.row))
    ensures y.Told(h) && y.start == x.start
    ensures var (p, db) := (x.now.procs[rid], x.now.db);
            && y.now.db.files == db.files[p.row := h(p.req.body)] && y.now.db.objects == db.objects
            && y.now.db.transfers == db.transfers
            && y.now.db.audit == db.audit + [AuditOf(h, p)] && y.now.db.events == db.events + [EventOf(h, p.req)]
            && y.now.procs == x.now.procs[rid := p.(stage := Finished(p.req.SuccessStatus()))]
  {
    y := Commits(h, x, rid);
    y := Announces(h, y, rid);
  }

  /** A new PUT or POST, up to its commit. */
  lemma {:induction false} ArrivesUpToCommit(h: Hash, x: Story, q: Request) returns (y: Story)
    requires x.Told(h) && q.Valid()
    requires !q.verb.Delete? && !q.LacksCondition() && (q.verb.Post? ==> Row(q.res) !in x.now.db.files)
    ensures y.Told(h) && y.start == x.start
    ensures y.now.db == x.now.db.(objects := x.now.db.objects[S3Key(q.res) := q.body],
                                  transfers := x.now.db.transfers + [Uploaded(|x.now.procs|, S3Key(q.res), q.body)])
    ensures |y.now.procs| == |x.now.procs| + 1 && y.now.procs[..|x.now.procs|] == x.now.procs
    ensures var p := y.now.procs[|x.now.procs|];
            && p == NewProc(q).(stage := Commit, oldEtag := p.oldEtag, uploaded := true, looked := p.looked)
            && p.oldEtag == if q.verb.Put? && Row(q.res) in x.now.db.files then x.now.db.files[Row(q.res)] else ""
  {
    y := Arrives(h, x, q);
    y := UpToCommit(h, y, |x.now.procs|, q);
  }

  /** A new DELETE, up to its statement. */
  lemma {:induction false} DeleteArrives(h: Hash, x: Story, q: Request) returns (y: Story)
    requires x.Told(h) && q.Valid() && q.verb.Delete? && !q.LacksCondition()
    ensures y.Told(h) && y.start == x.start
    ensures y.now == Sys(x.now.db, x.now.procs + [NewProc(q).(stage := Commit)])
  {
    y := Arrives(h, x, q);
    y := Runs(h, y, |x.now.procs|, y.now.db, NewProc(q).(stage := Commit));
  }

  /** The clean-up of a DELETE, its audit row and its event. */
  lemma {:induction false} SweepsAndAnnounces(h: Hash, x: Story, rid: nat) returns (y: Story)
    requires x.Told(h) && rid < |x.now.procs| && x.now.procs[rid].stage.Sweep?
    ensures y.Told(h) && y.start == x.start
    ensures var (p, db) := (x.now.procs[rid], x.now.db);
            && y.now.db.files == db.files && y.now.db.objects == db.objects - {p.s3Key}
            && y.now.procs == x.now.procs[rid := p.(stage := Finished(p.req.SuccessStatus()))]
  {
    var (p, db) := (x.now.procs[rid], x.now.db);
    y := Runs(h, x, rid, db.(objects := db.objects - {p.s3Key}, transfers := db.transfers + [Swept(rid, p.s3Key)]),
              p.(stage := Audit));
    y := Announces(h, y, rid);
  }

  /**
   DELETE answers 409 although the row never held another etag: the row is absent when the DELETE runs and is
   created, with exactly the expected etag, before the existence probe.
   */
  lemma {:induction false} ConflictWithoutMismatch(h: Hash, r: Resource, body: Bytes, actor: string)
      returns (steps: seq<Step>)
    requires r.Valid() && r.Issue? && h(body) != ""
    ensures var s := Exec(h, Start(map[], map[]), steps);
            && |s.procs| == 2
            && s.procs[0].req == Request(Delete, r, h(body), false, [], actor) && s.procs[0].stage == Finished(409)
            && |s.db.log| == 2 && s.db.log[0].rid == 0 && s.db.log[1].rid == 1
            && s.db.files == map[Row(r) := h(body)]
  {
    var del, post := Request(Delete, r, h(body), false, [], actor), Request(Post, r, "", false, body, actor);
    var y := Begin(h, Start(map[], map[]));
    y := DeleteArrives(h, y, del);
    y := ArrivesUpToCommit(h, y, post);
    y := Refused(h, y, 0);
    y := Commits(h, y, 1);
    y := Runs(h, y, 0, y.now.db, NewProc(del).(stage := Finished(409)));
    steps := y.steps;
  }

  /**
   The clean-up of a DELETE can remove the object a later POST has just stored: both requests succeed and the new
   row is left without an object.
   */
  lemma {:induction false} DeleteSweepsNewObject(h: Hash, r: Resource, body: Bytes, actor: string)
      returns (steps: seq<Step>)
    requires r.Valid() && r.Issue? && h(body) != ""
    ensures var s := Exec(h, Start(map[Row(r) := h(body)], map[S3Key(r) := body]), steps);
            && Row(r) in s.db.files && S3Key(r) !in s.db.objects && !Agrees(h, s.db, r)
            && |s.procs| == 2 && s.procs[0].stage == Finished(204) && s.procs[1].stage == Finished(201)
  {
    var del, post := Request(Delete, r, h(body), false, [], actor), Request(Post, r, "", false, body, actor);
    var y := Begin(h, Start(map[Row(r) := h(body)], map[S3Key(r) := body]));
    y := DeleteCommits(h, y, del);
    y := PostSucceeds(h, y, post);
    y := SweepsAndAnnounces(h, y, 0);
    steps := y.steps;
  }

  /** A new DELETE of a row with the expected etag, up to and including its statement. */
  lemma {:induction false} DeleteCommits(h: Hash, x: Story, q: Request) returns (y: Story)
    requires x.Told(h) && q.Valid() && q.verb.Delete? && q.res.Issue? && q.ifMatch != ""
    requires Get(x.now.db.files, Row(q.res)) == Some(q.ifMatch)
    ensures y.Told(h) && y.start == x.start
    ensures y.now.db.files == x.now.db.files - {Row(q.res)} && y.now.db.objects == x.now.db.objects
    ensures y.now.procs == x.now.procs + [NewProc(q).(stage := Sweep)]
  {
    y := DeleteArrives(h, x, q);
    y := Commits(h, y, |x.now.procs|);
  }

  /** A new POST of a missing row, from start to end. */
  lemma {:induction false} PostSucceeds(h: Hash, x: Story, q: Request) returns (y: Story)
    requires x.Told(h) && q.Valid() && q.verb.Post? && Row(q.res) !in x.now.db.files
    ensures y.Told(h) && y.start == x.start
    ensures y.now.db.files == x.now.db.files[Row(q.res) := h(q.body)]
    ensures |y.now.procs| == |x.now.procs| + 1 && y.now.procs[..|x.now.procs|] == x.now.procs
    ensures y.now.procs[|x.now.procs|].stage == Finished(201)
  {
    y := ArrivesUpToCommit(h, x, q);
    y := CommitsAndAnnounces(h, y, |x.now.procs|);
  }

  /**
   Two overlapping PUTs may append their events in the other order than they committed; the event table then
   rebuilds the older etag.
   */
  lemma {:induction false} AppendOrderCanDiffer(h: Hash, r: Resource, e: string, b1: Bytes, b2: Bytes, actor: string)
      returns (steps: seq<Step>)
    requires r.Valid() && e != "" && h(b1) != "" && h(b1) != h(b2)
    ensures var files := map[Row(r) := e];
            var s := Exec(h, Start(files, map[]), steps);
            && |s.procs| == 2 && s.procs[0].stage.Finished? && s.procs[1].stage.Finished?
            && s.db.lost == [] && |s.db.events| == 2
            && s.db.files == map[Row(r) := h(b2)] && FoldEvents(files, s.db.events) == map[Row(r) := h(b1)]
  {
    var files := map[Row(r) := e];
    var q1, q2 := Request(Put, r, e, false, b1, actor), Request(Put, r, h(b1), false, b2, actor);
    var y := Begin(h, Start(files, map[]));
    y := PutCommits(h, y, q1);
    y := PutCommits(h, y, q2);
    y := AnnouncesBoth(h, y, 1, 0);
    LastEventWins(files, EventOf(h, q2), EventOf(h, q1));
    assert y.now.db.events == [EventOf(h, q2), EventOf(h, q1)] && y.now.procs[..1][0] == y.now.procs[0];
    steps := y.steps;
  }

  /** A new PUT of a row with the expected etag, up to and including its commit. */
  lemma {:induction false} PutCommits(h: Hash, x: Story, q: Request) returns (y: Story)
    requires x.Told(h) && q.Valid()
    requires q.verb.Put? && !q.ifNoneMatchAny && q.ifMatch != "" && Get(x.now.db.files, Row(q.res)) == Some(q.ifMatch)
    ensures y.Told(h) && y.start == x.start
    ensures (y.now.db.events, y.now.db.lost) == (x.now.db.events, x.now.db.lost)
    ensures y.now.db.files == x.now.db.files[Row(q.res) := h(q.body)]
    ensures |y.now.procs| == |x.now.procs| + 1 && y.now.procs[..|x.now.procs|] == x.now.procs
    ensures y.now.procs[|x.now.procs|].stage.Audit? && y.now.procs[|x.now.procs|].req == q
  {
    y := ArrivesUpToCommit(h, x, q);
    y := Commits(h, y, |x.now.procs|);
  }

  lemma {:induction false} LastEventWins(files: Files, first: Event, second: Event)
    requires Row(first.res) == Row(second.res) && second.etag.Some?
    ensures FoldEvents(files, [first, second]) == files[Row(second.res) := second.etag.value]
  {
    FoldSnoc(files, [], first);
    FoldSnoc(files, [first], second);
    assert [] + [first] == [first] && [first] + [second] == [first, second];
  }

  /**
   A PUT may look up its etag_before, let another PUT commit, and then commit on top of it: both requests succeed one
   after the other, and the second audit row does not start where the first one ended.
   */
  lemma {:induction false} AuditBeforeCanBeStale(h: Hash, r: Resource, e: string, b1: Bytes, b2: Bytes, actor: string)
      returns (steps: seq<Step>)
    requires r.Valid() && e != "" && h(b1) != "" && h(b1) != e
    ensures var files := map[Row(r) := e];
            var s := Exec(h, Start(files, map[]), steps);
            && |s.procs| == 2 && s.procs[0].stage.Finished? && s.procs[1].stage.Finished?
            && |s.db.audit| == 2 && s.db.audit[0].row == s.db.audit[1].row == Row(r)
            && s.db.audit[0].after == Some(h(b1)) && s.db.audit[1].before == Some(e) && !Chained(files, s.db.audit)
  {
    var files := map[Row(r) := e];
    var q1, q2 := Request(Put, r, e, false, b1, actor), Request(Put, r, h(b1), false, b2, actor);
    var y := Begin(h, Start(files, map[]));
    y := ArrivesUpToCommit(h, y, q1);
    y := ArrivesUpToCommit(h, y, q2);
    y := CommitsAndAnnounces(h, y, 0);
    y := CommitsAndAnnounces(h, y, 1);
    StaleIsNoChain(files, y.now.db.audit, Row(r));
    steps := y.steps;
  }

  lemma {:induction false} StaleIsNoChain(files: Files, rows: seq<AuditRow>, row: RowKey)
    requires |rows| == 2 && rows[0].row == rows[1].row == row && rows[1].action != DeleteAttachment
    requires rows[1].before != rows[0].after
    ensures !Chained(files, rows)
  {
    assert rows[..1] == [rows[0]];
    FoldKeeps(files, rows[..1], 0, row);
  }
}
