/**
 Which requests in flight can still make a row disagree with its S3 object: exactly, over every continuation in
 which no further request for the resource arrives.
 */
module KeptAgreement {
  import opened Common
  import opened Resources
  import opened WriteProtocol
  import opened Linearizability
  import opened Rebuild

  /** Before its conditional statement, and not about to be answered 428. */
  predicate Undecided(p: Proc) {
    (p.stage.Guard? && !p.req.LacksCondition()) || p.stage.Look? || p.stage.Upload? || p.stage.Commit?
  }

  /** A PUT or POST that can still insert a missing row. */
  predicate MayCreate(p: Proc) {
    !p.req.verb.Delete? && p.req.IsCreate() && Undecided(p)
  }

  /** A DELETE that can still delete a row with etag `e`. */
  predicate MayDelete(p: Proc, e: string) {
    p.req.verb.Delete? && p.req.Condition().Holds(Some(e)) && Undecided(p)
  }

  /** While the row is there: a PUT uploads before it is refused, a POST only if its lookup is behind it. */
  predicate MayUpload(p: Proc) {
    !p.req.verb.Delete? && Undecided(p) && !p.stage.Commit? && (p.req.verb.Post? ==> p.stage.Upload?)
  }

  /** On its own the request leaves a row with etag `e`, and an object that hashes to it, in agreement. */
  predicate Harmless(h: Hash, p: Proc, e: string) {
    && !p.stage.Sweep?
    && (MayUpload(p) ==> h(p.req.body) == e)
    && (p.stage.Commit? && !p.req.verb.Delete? && p.req.Condition().Holds(Some(e)) ==> h(p.req.body) == e)
  }

  ghost predicate AllHarmless(h: Hash, procs: seq<Proc>, r: Resource, e: string) {
    forall i :: 0 <= i < |procs| && procs[i].req.res == r ==> Harmless(h, procs[i], e)
  }

  predicate Creates(procs: seq<Proc>, i: int, r: Resource) {
    0 <= i < |procs| && procs[i].req.res == r && MayCreate(procs[i])
  }

  ghost predicate NobodyCreates(procs: seq<Proc>, r: Resource) {
    forall i :: !Creates(procs, i, r)
  }

  ghost predicate NobodyDeletes(procs: seq<Proc>, r: Resource, e: string) {
    forall i :: 0 <= i < |procs| && procs[i].req.res == r ==> !MayDelete(procs[i], e)
  }

  /** The object of the resource is there and hashes to `e`. */
  ghost predicate Holds(h: Hash, db: Db, key: string, e: string) {
    key in db.objects && h(db.objects[key]) == e
  }

  /** A DELETE that takes effect, and then cleans up, even if there is no row. */
  predicate MayDeleteNothing(p: Proc) {
    p.req.verb.Delete? && p.req.Condition().Holds(None) && Undecided(p)
  }

  /**
   The row is missing and can only be created with etag `e`: all who may create it write `e`, the object is right
   for those that have uploaded, nobody cleans up after a DELETE that changed nothing, everyone is harmless to a row
   with etag `e`, and once it is created it is not both deleted and created once more.
   */
  ghost predicate Poised(h: Hash, s: Sys, r: Resource, e: string) {
    && AllHarmless(h, s.procs, r, e)
    && (forall i :: 0 <= i < |s.procs| && s.procs[i].req.res == r ==>
          && !MayDeleteNothing(s.procs[i])
          && (MayCreate(s.procs[i]) ==> Launches(h, s.db, s.procs[i], e)))
    && (NobodyDeletes(s.procs, r, e) || OneCreates(s.procs, r))
  }

  /** The request can create the row in agreement. */
  ghost predicate Launches(h: Hash, db: Db, p: Proc, e: string) {
    h(p.req.body) == e && (p.stage.Commit? ==> Holds(h, db, p.s3Key, e))
  }

  ghost predicate OneCreates(procs: seq<Proc>, r: Resource) {
    forall i, j :: Creates(procs, i, r) && Creates(procs, j, r) ==> i == j
  }

  /**
   A row that is there agrees, every request in flight is harmless on its own, and there are not both a DELETE that
   can take the row away and a PUT or POST that can then put it back before the DELETE's clean-up. A row that is not
   there has nobody to create it, or is poised to be created in agreement.
   */
  ghost predicate Safe(h: Hash, s: Sys, r: Resource) {
    match Get(s.db.files, Row(r))
    case None => NobodyCreates(s.procs, r) || exists e :: Poised(h, s, r, e)
    case Some(e) =>
      && Agrees(h, s.db, r) && AllHarmless(h, s.procs, r, e)
      && (NobodyDeletes(s.procs, r, e) || NobodyCreates(s.procs, r))
  }

  predicate NoneArrive(steps: seq<Step>, r: Resource) {
    forall k :: 0 <= k < |steps| && steps[k].Arrive? ==> steps[k].req.res != r
  }

  /** The resource agrees in every continuation without new requests for it. */
  ghost predicate StaysAgreeing(h: Hash, s: Sys, r: Resource) {
    forall steps :: NoneArrive(steps, r) ==> Agrees(h, Exec(h, s, steps).db, r)
  }

  // ---------- safe states stay safe ----------

  /** What one statement on a present row leads to: the row as it was, or gone by a DELETE. */
  ghost predicate PresentStep(h: Hash, e: string, db: Db, p: Proc, db2: Db, p2: Proc) {
    && (p2.req, p2.row, p2.s3Key) == (p.req, p.row, p.s3Key)
    && (MayCreate(p2) ==> MayCreate(p))
    && if p.row in db2.files then
         && db2.files[p.row] == e && p.s3Key in db2.objects && h(db2.objects[p.s3Key]) == e
         && Harmless(h, p2, e) && (MayDelete(p2, e) ==> MayDelete(p, e))
       else
         MayDelete(p, e)
  }

  lemma {:induction false} HarmlessStep(h: Hash, e: string, db: Db, rid: nat, p: Proc, ok: bool)
    requires !p.stage.Finished? && WellStaged(p) && Harmless(h, p, e)
    requires Get(db.files, p.row) == Some(e) && p.s3Key in db.objects && h(db.objects[p.s3Key]) == e
    ensures var (db2, p2) := StepProc(h, db, rid, p, ok);
            PresentStep(h, e, db, p, db2, p2)
  {
  }

  lemma {:induction false} AbsentStep(h: Hash, db: Db, rid: nat, p: Proc, ok: bool)
    requires !p.stage.Finished? && WellStaged(p) && p.row !in db.files && !MayCreate(p)
    ensures var (db2, p2) := StepProc(h, db, rid, p, ok);
            p2.req == p.req && p.row !in db2.files && !MayCreate(p2)
  {
  }

  /** A statement touches only its own row and key. */
  lemma {:induction false} OwnStep(h: Hash, db: Db, rid: nat, p: Proc, ok: bool)
    requires !p.stage.Finished?
    ensures var (db2, p2) := StepProc(h, db, rid, p, ok);
            && p2.req == p.req
            && (forall row | row != p.row :: Get(db2.files, row) == Get(db.files, row))
            && (forall key | key != p.s3Key :: Get(db2.objects, key) == Get(db.objects, key))
  {
  }

  /** What one statement on a missing row that is poised for `e` leads to: still poised, or created. */
  ghost predicate PoisedStep(h: Hash, e: string, db: Db, p: Proc, db2: Db, p2: Proc) {
    && (p2.req, p2.row, p2.s3Key) == (p.req, p.row, p.s3Key)
    && (MayCreate(p2) ==> MayCreate(p)) && (MayDelete(p2, e) ==> MayDelete(p, e))
    && Harmless(h, p2, e) && !MayDeleteNothing(p2)
    && (Holds(h, db, p.s3Key, e) ==> Holds(h, db2, p.s3Key, e))
    && if p.row in db2.files then
         db2.files[p.row] == e && Holds(h, db2, p.s3Key, e) && MayCreate(p) && !MayCreate(p2)
       else
         MayCreate(p2) ==> Launches(h, db2, p2, e)
  }

  lemma {:induction false} LaunchStep(h: Hash, e: string, db: Db, rid: nat, p: Proc, ok: bool)
    requires !p.stage.Finished? && WellStaged(p) && p.row !in db.files && Harmless(h, p, e)
    requires !MayDeleteNothing(p) && (MayCreate(p) ==> Launches(h, db, p, e))
    ensures var (db2, p2) := StepProc(h, db, rid, p, ok);
            PoisedStep(h, e, db, p, db2, p2)
  {
  }

  /** Row, object and requests of the resource are the same in both states. */
  ghost predicate SameFor(s: Sys, t: Sys, r: Resource) {
    && Get(t.db.files, Row(r)) == Get(s.db.files, Row(r)) && Get(t.db.objects, S3Key(r)) == Get(s.db.objects, S3Key(r))
    && |s.procs| <= |t.procs|
    && (forall i :: 0 <= i < |t.procs| && t.procs[i].req.res == r ==> i < |s.procs| && t.procs[i] == s.procs[i])
  }

  lemma {:induction false} SamePoised(h: Hash, s: Sys, t: Sys, r: Resource, e: string)
    requires SameFor(s, t, r) && Placed(s) && Poised(h, s, r, e)
    ensures Poised(h, t, r, e)
  {
    assert forall i :: Creates(t.procs, i, r) ==> Creates(s.procs, i, r);
  }

  lemma {:induction false} SameSafe(h: Hash, s: Sys, t: Sys, r: Resource)
    requires SameFor(s, t, r) && Placed(s) && Safe(h, s, r)
    ensures Safe(h, t, r)
  {
    assert forall i :: Creates(t.procs, i, r) ==> Creates(s.procs, i, r);
    if Row(r) !in s.db.files && !NobodyCreates(s.procs, r) {
      var e :| Poised(h, s, r, e);
      SamePoised(h, s, t, r, e);
    }
  }

  /** A statement that lets its own request create no more than before adds nobody. */
  lemma {:induction false} StillNobodyCreates(procs: seq<Proc>, i: nat, p2: Proc, r: Resource)
    requires NobodyCreates(procs, r) && i < |procs| && p2.req == procs[i].req && (MayCreate(p2) ==> MayCreate(procs[i]))
    ensures NobodyCreates(procs[i := p2], r)
  {
    var after := procs[i := p2];
    forall j
      ensures !Creates(after, j, r)
    {
      assert !Creates(procs, j, r);
    }
  }

  lemma {:induction false} OwnKeepsSafe(h: Hash, s: Sys, i: nat, db2: Db, p2: Proc, r: Resource)
    requires Safe(h, s, r) && i < |s.procs| && s.procs[i].req.res == r
    requires s.procs[i].row == Row(r) && s.procs[i].s3Key == S3Key(r) && Row(r) in s.db.files
    requires PresentStep(h, s.db.files[Row(r)], s.db, s.procs[i], db2, p2)
    ensures Safe(h, Sys(db2, s.procs[i := p2]), r)
  {
    if NobodyCreates(s.procs, r) {
      StillNobodyCreates(s.procs, i, p2, r);
    }
    if Row(r) !in db2.files {
      assert !NobodyDeletes(s.procs, r, s.db.files[Row(r)]);
    }
  }

  /** The statement creates the row. */
  lemma {:induction false} LaunchedIsSafe(h: Hash, s: Sys, i: nat, db2: Db, p2: Proc, r: Resource, e: string)
    requires Poised(h, s, r, e) && i < |s.procs| && s.procs[i].req.res == r
    requires s.procs[i].row == Row(r) && s.procs[i].s3Key == S3Key(r)
    requires PoisedStep(h, e, s.db, s.procs[i], db2, p2) && Row(r) in db2.files
    ensures Safe(h, Sys(db2, s.procs[i := p2]), r)
  {
    var after := s.procs[i := p2];
    assert Creates(s.procs, i, r);
    assert NobodyDeletes(s.procs, r, e) ==> NobodyDeletes(after, r, e);
    if OneCreates(s.procs, r) {
      forall j
        ensures !Creates(after, j, r)
      {
        assert Creates(after, j, r) ==> Creates(s.procs, j, r);
      }
    }
  }

  /** The row stays missing. */
  lemma {:induction false} StillPoised(h: Hash, s: Sys, i: nat, db2: Db, p2: Proc, r: Resource, e: string)
    requires Placed(s) && Poised(h, s, r, e) && i < |s.procs| && s.procs[i].req.res == r
    requires s.procs[i].row == Row(r) && s.procs[i].s3Key == S3Key(r)
    requires PoisedStep(h, e, s.db, s.procs[i], db2, p2) && Row(r) !in db2.files
    ensures Poised(h, Sys(db2, s.procs[i := p2]), r, e)
  {
    var after := s.procs[i := p2];
    assert forall j :: Creates(after, j, r) ==> Creates(s.procs, j, r);
    assert NobodyDeletes(s.procs, r, e) ==> NobodyDeletes(after, r, e);
  }

  lemma {:induction false} LaunchKeepsSafe(h: Hash, s: Sys, i: nat, db2: Db, p2: Proc, r: Resource, e: string)
    requires Placed(s) && Poised(h, s, r, e) && i < |s.procs| && s.procs[i].req.res == r
    requires s.procs[i].row == Row(r) && s.procs[i].s3Key == S3Key(r)
    requires PoisedStep(h, e, s.db, s.procs[i], db2, p2)
    ensures Safe(h, Sys(db2, s.procs[i := p2]), r)
  {
    if Row(r) in db2.files {
      LaunchedIsSafe(h, s, i, db2, p2, r, e);
    } else {
      StillPoised(h, s, i, db2, p2, r, e);
    }
  }

  lemma {:induction false} OwnStepKeepsSafe(h: Hash, files: Files, s: Sys, i: nat, ok: bool, r: Resource)
    requires Inv(h, files, s) && Placed(s) && r.Valid() && Safe(h, s, r)
    requires i < |s.procs| && !s.procs[i].stage.Finished? && s.procs[i].req.res == r
    ensures Safe(h, Next(h, s, Run(i, ok)), r)
  {
    var p := s.procs[i];
    var (db2, p2) := StepProc(h, s.db, i, p, ok);
    if p.row in s.db.files {
      HarmlessStep(h, s.db.files[p.row], s.db, i, p, ok);
      OwnKeepsSafe(h, s, i, db2, p2, r);
    } else if NobodyCreates(s.procs, r) {
      assert !Creates(s.procs, i, r);
      AbsentStep(h, s.db, i, p, ok);
      StillNobodyCreates(s.procs, i, p2, r);
    } else {
      var e :| Poised(h, s, r, e);
      LaunchStep(h, e, s.db, i, p, ok);
      LaunchKeepsSafe(h, s, i, db2, p2, r, e);
    }
  }

  lemma {:induction false} NextKeepsSafe(h: Hash, files: Files, s: Sys, st: Step, r: Resource)
    requires Inv(h, files, s) && Placed(s) && r.Valid() && Safe(h, s, r) && (st.Arrive? ==> st.req.res != r)
    ensures Safe(h, Next(h, s, st), r)
  {
    if st.Arrive? {
      SameSafe(h, s, Next(h, s, st), r);
    } else if st.rid < |s.procs| && !s.procs[st.rid].stage.Finished? {
      var i, p := st.rid, s.procs[st.rid];
      if p.req.res == r {
        OwnStepKeepsSafe(h, files, s, i, st.ok, r);
      } else {
        var (db2, p2) := StepProc(h, s.db, i, p, st.ok);
        OwnStep(h, s.db, i, p, st.ok);
        ResourcesNeverCollide(p.req.res, r);
        SameSafe(h, s, Sys(db2, s.procs[i := p2]), r);
      }
    }
  }

  lemma {:induction false} SafeStaysSafe(h: Hash, files: Files, s: Sys, steps: seq<Step>, r: Resource)
    requires Inv(h, files, s) && Placed(s) && r.Valid() && Safe(h, s, r) && NoneArrive(steps, r)
    ensures Safe(h, Exec(h, s, steps), r)
  {
    if steps != [] {
      var n := |steps| - 1;
      SafeStaysSafe(h, files, s, steps[..n], r);
      ExecKeepsInv(h, files, s, steps[..n]);
      ExecPlaced(h, files, s, steps[..n]);
      NextKeepsSafe(h, files, Exec(h, s, steps[..n]), steps[n], r);
    }
  }

  // ---------- unsafe states can be broken ----------

  /** How far a request is from its conditional statement. */
  function ToGo(st: Stage): nat {
    match st
    case Guard => 3
    case Look => 2
    case Upload => 1
    case _ => 0
  }

  /** One successful statement of request `i`, then the rest. */
  lemma {:induction false} RunThen(h: Hash, s: Sys, i: nat, rest: seq<Step>, r: Resource)
    requires i < |s.procs| && !s.procs[i].stage.Finished? && NoneArrive(rest, r)
    ensures NoneArrive([Run(i, true)] + rest, r)
    ensures Exec(h, s, [Run(i, true)] + rest)
            == Exec(h, Sys(StepProc(h, s.db, i, s.procs[i], true).0,
                           s.procs[i := StepProc(h, s.db, i, s.procs[i], true).1]), rest)
  {
    ExecSplit(h, s, [Run(i, true)], rest);
    ExecSnoc(h, s, [], Run(i, true));
    assert [] + [Run(i, true)] == [Run(i, true)];
  }

  lemma {:induction false} UploadRun(h: Hash, s: Sys, i: nat, r: Resource) returns (steps: seq<Step>)
    requires i < |s.procs| && MayUpload(s.procs[i])
    ensures NoneArrive(steps, r)
    ensures var t := Exec(h, s, steps);
            t.db.files == s.db.files && Get(t.db.objects, s.procs[i].s3Key) == Some(s.procs[i].req.body)
    decreases ToGo(s.procs[i].stage)
  {
    var p := s.procs[i];
    var (db2, p2) := StepProc(h, s.db, i, p, true);
    var rest := [];
    if !p.stage.Upload? {
      rest := UploadRun(h, Sys(db2, s.procs[i := p2]), i, r);
    }
    RunThen(h, s, i, rest, r);
    steps := [Run(i, true)] + rest;
  }

  lemma {:induction false} DeleteRun(h: Hash, s: Sys, i: nat, r: Resource) returns (steps: seq<Step>)
    requires i < |s.procs| && WellStaged(s.procs[i]) && s.procs[i].req.verb.Delete? && Undecided(s.procs[i])
    requires s.procs[i].req.Condition().Holds(Get(s.db.files, s.procs[i].row))
    ensures NoneArrive(steps, r)
    ensures var t := Exec(h, s, steps);
            s.procs[i].row !in t.db.files && t.procs == s.procs[i := s.procs[i].(stage := Sweep)]
    decreases ToGo(s.procs[i].stage)
  {
    var p := s.procs[i];
    var (db2, p2) := StepProc(h, s.db, i, p, true);
    var rest := [];
    if p.stage.Guard? {
      rest := DeleteRun(h, Sys(db2, s.procs[i := p2]), i, r);
    }
    RunThen(h, s, i, rest, r);
    steps := [Run(i, true)] + rest;
  }

  lemma {:induction false} CreateRun(h: Hash, s: Sys, i: nat, r: Resource) returns (steps: seq<Step>)
    requires i < |s.procs| && MayCreate(s.procs[i]) && s.procs[i].row !in s.db.files
    ensures NoneArrive(steps, r)
    ensures var t := Exec(h, s, steps);
            && Get(t.db.files, s.procs[i].row) == Some(h(s.procs[i].req.body)) && |t.procs| == |s.procs|
            && forall j :: 0 <= j < |s.procs| && j != i ==> t.procs[j] == s.procs[j]
    decreases ToGo(s.procs[i].stage)
  {
    var p := s.procs[i];
    var (db2, p2) := StepProc(h, s.db, i, p, true);
    var rest := [];
    if !p.stage.Commit? {
      rest := CreateRun(h, Sys(db2, s.procs[i := p2]), i, r);
    }
    RunThen(h, s, i, rest, r);
    steps := [Run(i, true)] + rest;
  }

  /** A DELETE about to clean up breaks a row that is there. */
  lemma {:induction false} SweepBreaks(h: Hash, s: Sys, i: nat, r: Resource)
    requires i < |s.procs| && s.procs[i].stage.Sweep? && s.procs[i].s3Key == S3Key(r) && Row(r) in s.db.files
    ensures NoneArrive([Run(i, true)], r) && !Agrees(h, Exec(h, s, [Run(i, true)]).db, r)
  {
    RunThen(h, s, i, [], r);
    assert [Run(i, true)] + [] == [Run(i, true)];
  }

  /** A request that is not harmless on its own breaks agreement on its own. */
  lemma {:induction false} HarmBreaks(h: Hash, s: Sys, i: nat, r: Resource) returns (steps: seq<Step>)
    requires Placed(s) && r.Valid() && Row(r) in s.db.files && Agrees(h, s.db, r)
    requires i < |s.procs| && s.procs[i].req.res == r && !Harmless(h, s.procs[i], s.db.files[Row(r)])
    ensures NoneArrive(steps, r) && !Agrees(h, Exec(h, s, steps).db, r)
  {
    if s.procs[i].stage.Sweep? {
      SweepBreaks(h, s, i, r);
      steps := [Run(i, true)];
    } else if MayUpload(s.procs[i]) {
      steps := UploadRun(h, s, i, r);
    } else {
      steps := [Run(i, true)];
      RunThen(h, s, i, [], r);
      assert [Run(i, true)] + [] == [Run(i, true)];
    }
  }

  /**
   A DELETE takes effect, the other request creates the row, and the DELETE's clean-up takes the object. The DELETE
   takes the row away or, if it has no condition, finds none.
   */
  lemma {:induction false} DeleteAndCreateBreak(h: Hash, s: Sys, i: nat, j: nat, r: Resource) returns (steps: seq<Step>)
    requires Placed(s) && r.Valid()
    requires i < |s.procs| && s.procs[i].req.res == r && WellStaged(s.procs[i])
    requires s.procs[i].req.verb.Delete? && Undecided(s.procs[i])
    requires s.procs[i].req.Condition().Holds(Get(s.db.files, Row(r)))
    requires Creates(s.procs, j, r)
    ensures NoneArrive(steps, r) && !Agrees(h, Exec(h, s, steps).db, r)
  {
    var a := DeleteRun(h, s, i, r);
    var t := Exec(h, s, a);
    var b := CreateRun(h, t, j, r);
    var u := Exec(h, t, b);
    SweepBreaks(h, u, i, r);
    ExecSplit(h, s, a, b);
    ExecSplit(h, s, a + b, [Run(i, true)]);
    steps := a + b + [Run(i, true)];
  }

  /** Up to the conditional statement. */
  lemma {:induction false} ToCommit(h: Hash, s: Sys, i: nat, r: Resource) returns (steps: seq<Step>)
    requires i < |s.procs| && MayCreate(s.procs[i]) && s.procs[i].row !in s.db.files
    ensures NoneArrive(steps, r)
    ensures var (t, p) := (Exec(h, s, steps), s.procs[i]);
            && t.db.files == s.db.files && |t.procs| == |s.procs|
            && t.procs[i].stage.Commit? && (t.procs[i].req, t.procs[i].row, t.procs[i].s3Key) == (p.req, p.row, p.s3Key)
            && forall j :: 0 <= j < |s.procs| && j != i ==> t.procs[j] == s.procs[j]
    decreases ToGo(s.procs[i].stage)
  {
    var p := s.procs[i];
    if p.stage.Commit? {
      steps := [];
    } else {
      var (db2, p2) := StepProc(h, s.db, i, p, true);
      var rest := ToCommit(h, Sys(db2, s.procs[i := p2]), i, r);
      RunThen(h, s, i, rest, r);
      steps := [Run(i, true)] + rest;
    }
  }

  /** A creation that commits over another object. */
  lemma {:induction false} CommitBreaks(h: Hash, s: Sys, i: nat, r: Resource)
    requires Placed(s) && Creates(s.procs, i, r) && s.procs[i].stage.Commit? && Row(r) !in s.db.files
    requires !Holds(h, s.db, S3Key(r), h(s.procs[i].req.body))
    ensures NoneArrive([Run(i, true)], r) && !Agrees(h, Exec(h, s, [Run(i, true)]).db, r)
  {
    RunThen(h, s, i, [], r);
    assert [Run(i, true)] + [] == [Run(i, true)];
  }

  /** Two creations with different etags: one object cannot be right for both. */
  lemma {:induction false} RivalsBreak(h: Hash, files: Files, s: Sys, i: nat, j: nat, r: Resource) returns (steps: seq<Step>)
    requires Inv(h, files, s) && Placed(s) && Row(r) !in s.db.files
    requires Creates(s.procs, i, r) && Creates(s.procs, j, r) && h(s.procs[i].req.body) != h(s.procs[j].req.body)
    ensures NoneArrive(steps, r) && !Agrees(h, Exec(h, s, steps).db, r)
  {
    var a := ToCommit(h, s, i, r);
    var t := Exec(h, s, a);
    var b := ToCommit(h, t, j, r);
    var u := Exec(h, t, b);
    ExecSplit(h, s, a, b);
    ExecPlaced(h, files, s, a + b);
    var c := OneRivalBreaks(h, u, i, j, r);
    ExecSplit(h, s, a + b, c);
    steps := a + b + c;
  }

  lemma {:induction false} OneRivalBreaks(h: Hash, s: Sys, i: nat, j: nat, r: Resource) returns (steps: seq<Step>)
    requires Placed(s) && Row(r) !in s.db.files
    requires Creates(s.procs, i, r) && Creates(s.procs, j, r) && h(s.procs[i].req.body) != h(s.procs[j].req.body)
    requires s.procs[i].stage.Commit? && s.procs[j].stage.Commit?
    ensures NoneArrive(steps, r) && !Agrees(h, Exec(h, s, steps).db, r)
  {
    var wrong := if Holds(h, s.db, S3Key(r), h(s.procs[i].req.body)) then j else i;
    CommitBreaks(h, s, wrong, r);
    steps := [Run(wrong, true)];
  }

  /** A request that is not harmless to a row with etag `e` breaks it once the row is created. */
  lemma {:induction false} CreatedThenHarmed(h: Hash, files: Files, s: Sys, i: nat, k: nat, r: Resource)
      returns (steps: seq<Step>)
    requires Inv(h, files, s) && Placed(s) && r.Valid() && Row(r) !in s.db.files && Creates(s.procs, i, r)
    requires k < |s.procs| && k != i && s.procs[k].req.res == r && !Harmless(h, s.procs[k], h(s.procs[i].req.body))
    ensures NoneArrive(steps, r) && !Agrees(h, Exec(h, s, steps).db, r)
  {
    var a := CreateRun(h, s, i, r);
    var t := Exec(h, s, a);
    var b := [];
    if !Agrees(h, t.db, r) {
      assert Exec(h, t, b) == t;
    } else {
      ExecPlaced(h, files, s, a);
      b := HarmBreaks(h, t, k, r);
    }
    ExecSplit(h, s, a, b);
    steps := a + b;
  }

  /** Once the row is created, a DELETE and another creation break it. */
  lemma {:induction false} CreatedThenReplaced(h: Hash, files: Files, s: Sys, i: nat, k: nat, j: nat, r: Resource)
      returns (steps: seq<Step>)
    requires Inv(h, files, s) && Placed(s) && r.Valid() && Row(r) !in s.db.files && Creates(s.procs, i, r)
    requires k < |s.procs| && s.procs[k].req.res == r && MayDelete(s.procs[k], h(s.procs[i].req.body))
    requires j != i && Creates(s.procs, j, r)
    ensures NoneArrive(steps, r) && !Agrees(h, Exec(h, s, steps).db, r)
  {
    var a := CreateRun(h, s, i, r);
    var t := Exec(h, s, a);
    ExecPlaced(h, files, s, a);
    assert t.procs[k] == s.procs[k] && t.procs[j] == s.procs[j];
    var b := DeleteAndCreateBreak(h, t, k, j, r);
    ExecSplit(h, s, a, b);
    steps := a + b;
  }

  lemma {:induction false} UnpoisedBreaks(h: Hash, files: Files, s: Sys, i: nat, r: Resource) returns (steps: seq<Step>)
    requires Inv(h, files, s) && Placed(s) && r.Valid() && Row(r) !in s.db.files
    requires Creates(s.procs, i, r) && !Poised(h, s, r, h(s.procs[i].req.body))
    ensures NoneArrive(steps, r) && !Agrees(h, Exec(h, s, steps).db, r)
  {
    var e := h(s.procs[i].req.body);
    if k :| 0 <= k < |s.procs| && s.procs[k].req.res == r && MayDeleteNothing(s.procs[k]) {
      steps := DeleteAndCreateBreak(h, s, k, i, r);
    } else if j :| Creates(s.procs, j, r) && !Launches(h, s.db, s.procs[j], e) {
      if h(s.procs[j].req.body) != e {
        steps := RivalsBreak(h, files, s, i, j, r);
      } else {
        CommitBreaks(h, s, j, r);
        steps := [Run(j, true)];
      }
    } else if !AllHarmless(h, s.procs, r, e) {
      var k :| 0 <= k < |s.procs| && s.procs[k].req.res == r && !Harmless(h, s.procs[k], e);
      steps := CreatedThenHarmed(h, files, s, i, k, r);
    } else {
      assert !OneCreates(s.procs, r) && !NobodyDeletes(s.procs, r, e);
      var a, b :| Creates(s.procs, a, r) && Creates(s.procs, b, r) && a != b;
      var k :| 0 <= k < |s.procs| && s.procs[k].req.res == r && MayDelete(s.procs[k], e);
      steps := CreatedThenReplaced(h, files, s, i, k, if a == i then b else a, r);
    }
  }

  lemma {:induction false} UnsafeBreaks(h: Hash, files: Files, s: Sys, r: Resource) returns (steps: seq<Step>)
    requires Inv(h, files, s) && Placed(s) && r.Valid() && Row(r) in s.db.files && !Safe(h, s, r)
    ensures NoneArrive(steps, r) && !Agrees(h, Exec(h, s, steps).db, r)
  {
    var e := s.db.files[Row(r)];
    if !Agrees(h, s.db, r) {
      steps := [];
    } else if !AllHarmless(h, s.procs, r, e) {
      var i :| 0 <= i < |s.procs| && s.procs[i].req.res == r && !Harmless(h, s.procs[i], e);
      steps := HarmBreaks(h, s, i, r);
    } else {
      var i :| 0 <= i < |s.procs| && s.procs[i].req.res == r && MayDelete(s.procs[i], e);
      var j :| Creates(s.procs, j, r);
      steps := DeleteAndCreateBreak(h, s, i, j, r);
    }
  }

  /**
   After any interleaving, a resource stays in agreement in every continuation without new requests for it if and
   only if its state is safe. For a row that is there: it agrees now, no DELETE is about to clean up, every PUT or
   POST that will upload, or whose condition the row meets, carries the etag the row has, and a DELETE that can still
   take the row away and a request that can then create it are not both in flight.
   */
  lemma {:induction false} StaysAgreeingIff(
    h: Hash, files: Files, objects: map<string, Bytes>, steps: seq<Step>, r: Resource)
    requires r.Valid()
    ensures var s := Exec(h, Start(files, objects), steps);
            StaysAgreeing(h, s, r) <==> Safe(h, s, r)
  {
    var s := Exec(h, Start(files, objects), steps);
    ExecKeepsInv(h, files, Start(files, objects), steps);
    ExecPlaced(h, files, Start(files, objects), steps);
    if Safe(h, s, r) {
      forall more | NoneArrive(more, r)
        ensures Agrees(h, Exec(h, s, more).db, r)
      {
        SafeStaysSafe(h, files, s, more, r);
      }
    } else if Row(r) in s.db.files {
      var more := UnsafeBreaks(h, files, s, r);
    } else {
      var i :| Creates(s.procs, i, r);
      var more := UnpoisedBreaks(h, files, s, i, r);
    }
  }
}
