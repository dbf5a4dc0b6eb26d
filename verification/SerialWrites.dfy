/**
 Requests served one at a time: each handler runs to its end before the next starts, with any set of failing
 statements. Serving is a particular interleaved run, and what one request does from start to end is exact.
 */
module SerialWrites {
  import opened Common
  import opened Resources
  import opened WriteProtocol
  import opened Linearizability

  function Rank(st: Stage): nat {
    match st
    case Guard => 7
    case Look => 6
    case Upload => 5
    case Commit => 4
    case Sweep => 3
    case Audit => 2
    case Append => 1
    case Probe => 1
    case Finished(_) => 0
  }

  /** Runs a handler to its end; the statements whose stage is in `faults` fail. */
  function RunToEnd(h: Hash, db: Db, rid: nat, p: Proc, faults: set<Stage>): (Db, Proc)
    decreases Rank(p.stage)
  {
    if p.stage.Finished? then (db, p)
    else
      var (db2, p2) := StepProc(h, db, rid, p, p.stage !in faults);
      RunToEnd(h, db2, rid, p2, faults)
  }

  function Serve(h: Hash, db: Db, rid: nat, q: Request, faults: set<Stage>): (Db, Proc) {
    RunToEnd(h, db, rid, NewProc(q), faults)
  }

  datatype Job = Job(req: Request, faults: set<Stage>)

  /** Serves the jobs one after the other. */
  function ServeAll(h: Hash, db: Db, jobs: seq<Job>): Db {
    if jobs == [] then db
    else
      var job := jobs[|jobs| - 1];
      Serve(h, ServeAll(h, db, jobs[..|jobs| - 1]), |jobs| - 1, job.req, job.faults).0
  }

  /** Serving a request is one particular interleaved run. */
  lemma {:induction false} ServeIsARun(h: Hash, s: Sys, q: Request, faults: set<Stage>) returns (steps: seq<Step>)
    requires q.Valid()
    ensures var (db, p) := Serve(h, s.db, |s.procs|, q, faults);
            Exec(h, s, steps) == Sys(db, s.procs + [p])
  {
    var rest := RunToEndIsARun(h, s.(procs := s.procs + [NewProc(q)]), |s.procs|, faults);
    steps := [Arrive(q)] + rest;
    ExecSplit(h, s, [Arrive(q)], rest);
    ExecSnoc(h, s, [], Arrive(q));
    assert [] + [Arrive(q)] == [Arrive(q)];
  }

  lemma {:induction false} RunToEndIsARun(h: Hash, s: Sys, rid: nat, faults: set<Stage>) returns (steps: seq<Step>)
    requires rid == |s.procs| - 1
    ensures var (db, p) := RunToEnd(h, s.db, rid, s.procs[rid], faults);
            Exec(h, s, steps) == Sys(db, s.procs[..rid] + [p])
    decreases Rank(s.procs[rid].stage)
  {
    if s.procs[rid].stage.Finished? {
      steps := [];
      assert s.procs == s.procs[..rid] + [s.procs[rid]];
    } else {
      var st := Run(rid, s.procs[rid].stage !in faults);
      var t := Next(h, s, st);
      var rest := RunToEndIsARun(h, t, rid, faults);
      steps := [st] + rest;
      ExecSplit(h, s, [st], rest);
      ExecSnoc(h, s, [], st);
      assert [] + [st] == [st];
      assert t.procs[..rid] == s.procs[..rid];
    }
  }

  // ---------- what one request does, start to end ----------

  predicate Committed(st: Stage) {
    st.Sweep? || st.Audit? || st.Append? || (st.Finished? && st.status in {200, 201, 204})
  }

  /** How far a handler that started on `db0` has come at `db`, `p`. */
  ghost predicate Progress(h: Hash, db0: Db, q: Request, faults: set<Stage>, db: Db, p: Proc) {
    var current := Get(db0.files, p.row);
    && p.req == q && WellStaged(p)
    && (q.verb.Put? && (p.stage.Upload? || p.stage.Commit? || Committed(p.stage)) && Look !in faults ==>
          p.oldEtag == if current.Some? then current.value else "")
    && if Committed(p.stage) then
         && q.Condition().Holds(current) && !q.LacksCondition()
         && db.files == Store(db0.files, p.row, q.NewEtag(h))
         && (q.verb.Delete? ==> db.objects == if p.stage.Sweep? || Sweep in faults then db0.objects else db0.objects - {p.s3Key})
         && (!q.verb.Delete? ==> db.objects == db0.objects[p.s3Key := q.body] && p.uploaded)
         && db.audit == db0.audit + (if !p.stage.Sweep? && !p.stage.Audit? && Audit !in faults then [AuditOf(h, p)] else [])
         && db.events == db0.events + (if p.stage.Finished? && Append !in faults then [EventOf(h, q)] else [])
       else
         && (db.files, db.audit, db.events) == (db0.files, db0.audit, db0.events)
         && db.objects == (if p.uploaded then db0.objects[p.s3Key := q.body] else db0.objects)
         && (p.uploaded ==> !q.verb.Delete? && (p.stage.Commit? || p.stage.Finished?))
         && (p.stage.Commit? && !q.verb.Delete? ==> p.uploaded)
         && (q.verb.Post? && (p.uploaded || p.stage.Upload?) ==> current.None?)
  }

  lemma {:induction false} EarlyProgress(h: Hash, db0: Db, q: Request, faults: set<Stage>, db: Db, rid: nat, p: Proc)
    requires Progress(h, db0, q, faults, db, p) && (p.stage.Guard? || p.stage.Look? || p.stage.Upload? || p.stage.Probe?)
    ensures var (db2, p2) := StepProc(h, db, rid, p, p.stage !in faults);
            Progress(h, db0, q, faults, db2, p2)
  {
  }

  lemma {:induction false} CommitProgress(h: Hash, db0: Db, q: Request, faults: set<Stage>, db: Db, rid: nat, p: Proc)
    requires Progress(h, db0, q, faults, db, p) && p.stage.Commit?
    ensures var (db2, p2) := StepProc(h, db, rid, p, p.stage !in faults);
            Progress(h, db0, q, faults, db2, p2)
  {
  }

  lemma {:induction false} LateProgress(h: Hash, db0: Db, q: Request, faults: set<Stage>, db: Db, rid: nat, p: Proc)
    requires Progress(h, db0, q, faults, db, p) && (p.stage.Sweep? || p.stage.Audit? || p.stage.Append?)
    ensures var (db2, p2) := StepProc(h, db, rid, p, p.stage !in faults);
            Progress(h, db0, q, faults, db2, p2)
  {
    var (db2, p2) := StepProc(h, db, rid, p, p.stage !in faults);
    assert AuditOf(h, p2) == AuditOf(h, p);
  }

  lemma {:induction false} RunToEndProgresses(h: Hash, db0: Db, q: Request, faults: set<Stage>, db: Db, rid: nat, p: Proc)
    requires Progress(h, db0, q, faults, db, p)
    ensures var (db2, p2) := RunToEnd(h, db, rid, p, faults);
            p2.stage.Finished? && (p2.row, p2.s3Key) == (p.row, p.s3Key) && Progress(h, db0, q, faults, db2, p2)
    decreases Rank(p.stage)
  {
    if !p.stage.Finished? {
      var db2, p2 := OneMoreStep(h, db0, q, faults, db, rid, p);
      RunToEndProgresses(h, db0, q, faults, db2, rid, p2);
    }
  }

  lemma {:induction false} OneMoreStep(h: Hash, db0: Db, q: Request, faults: set<Stage>, db: Db, rid: nat, p: Proc)
      returns (db2: Db, p2: Proc)
    requires Progress(h, db0, q, faults, db, p) && !p.stage.Finished?
    ensures (db2, p2) == StepProc(h, db, rid, p, p.stage !in faults) && Progress(h, db0, q, faults, db2, p2)
    ensures Rank(p2.stage) < Rank(p.stage) && (p2.row, p2.s3Key) == (p.row, p.s3Key)
  {
    db2, p2 := StepProc(h, db, rid, p, p.stage !in faults).0, StepProc(h, db, rid, p, p.stage !in faults).1;
    if p.stage.Commit? {
      CommitProgress(h, db0, q, faults, db, rid, p);
    } else if p.stage.Sweep? || p.stage.Audit? || p.stage.Append? {
      LateProgress(h, db0, q, faults, db, rid, p);
    } else {
      EarlyProgress(h, db0, q, faults, db, rid, p);
    }
  }

  lemma {:induction false} ServeProgress(h: Hash, db: Db, rid: nat, q: Request, faults: set<Stage>)
    ensures var (db2, p2) := Serve(h, db, rid, q, faults);
            p2.stage.Finished? && p2.row == Row(q.res) && p2.s3Key == S3Key(q.res) && Progress(h, db, q, faults, db2, p2)
  {
    RunToEndProgresses(h, db, q, faults, db, rid, NewProc(q));
  }
}
