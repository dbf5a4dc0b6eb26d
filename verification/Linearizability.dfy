/**
 What every interleaving of write requests keeps: the `files` table is a sequential run of a conditional map and no
 update is lost; and when the answer to a refused DELETE is true.
 */
module Linearizability {
  import opened Common
  import opened Resources
  import opened WriteProtocol

  // ---------- the sequential conditional map ----------

  function SeqApply(files: Files, d: Decision): Files {
    if d.cond.Holds(Get(files, d.row)) then Store(files, d.row, d.write) else files
  }

  function SeqRun(files: Files, log: seq<Decision>): Files {
    if log == [] then files else SeqApply(SeqRun(files, log[..|log| - 1]), log[|log| - 1])
  }

  /** Each recorded answer is the one the sequential map gives at that point. */
  ghost predicate Sound(files: Files, log: seq<Decision>) {
    log == [] ||
    var d, earlier := log[|log| - 1], log[..|log| - 1];
    Sound(files, earlier) && d.granted == d.cond.Holds(Get(SeqRun(files, earlier), d.row))
  }

  /** The decisions of one request. */
  function DecisionsOf(log: seq<Decision>, rid: nat): seq<Decision> {
    if log == [] then []
    else DecisionsOf(log[..|log| - 1], rid) + if log[|log| - 1].rid == rid then [log[|log| - 1]] else []
  }

  /** What the stage or the final answer of a request says about its decision. */
  function Decided(h: Hash, rid: nat, p: Proc): seq<Decision> {
    match p.stage
    case Guard => []
    case Look => []
    case Upload => []
    case Commit => []
    case Probe => [DecisionOf(h, rid, p, false)]
    case Sweep => [DecisionOf(h, rid, p, true)]
    case Audit => [DecisionOf(h, rid, p, true)]
    case Append => [DecisionOf(h, rid, p, true)]
    case Finished(status) =>
      if status in {200, 201, 204} then [DecisionOf(h, rid, p, true)]
      else if status in {404, 409} then [DecisionOf(h, rid, p, false)]
      else []
  }

  /** Requests past their guard carry a usable condition, and are not where their verb never goes. */
  predicate WellStaged(p: Proc) {
    && (!p.stage.Guard? && !p.stage.Finished? ==> !p.req.LacksCondition())
    && (p.stage.Look? || p.stage.Upload? ==> !p.req.verb.Delete?)
    && (p.stage.Probe? || p.stage.Sweep? ==> p.req.verb.Delete?)
    && (p.req.verb.Post? || p.req.verb.Delete? ==> p.oldEtag == "")
  }

  ghost predicate Inv(h: Hash, files: Files, s: Sys) {
    && s.db.files == SeqRun(files, s.db.log)
    && Sound(files, s.db.log)
    && (forall i :: 0 <= i < |s.procs| ==> WellStaged(s.procs[i]))
    && (forall i :: 0 <= i < |s.procs| ==> DecisionsOf(s.db.log, i) == Decided(h, i, s.procs[i]))
    && (forall k :: 0 <= k < |s.db.log| ==> s.db.log[k].rid < |s.procs|)
  }

  lemma {:induction false} SoundSnoc(files: Files, log: seq<Decision>, d: Decision)
    requires Sound(files, log)
    requires d.granted == d.cond.Holds(Get(SeqRun(files, log), d.row))
    ensures Sound(files, log + [d])
    ensures SeqRun(files, log + [d]) == SeqApply(SeqRun(files, log), d)
    ensures forall rid :: DecisionsOf(log + [d], rid) == DecisionsOf(log, rid) + if d.rid == rid then [d] else []
  {
    assert (log + [d])[..|log|] == log;
  }

  lemma {:induction false} NoDecisionsYet(log: seq<Decision>, rid: nat)
    requires forall k :: 0 <= k < |log| ==> log[k].rid < rid
    ensures DecisionsOf(log, rid) == []
  {
    if log != [] {
      NoDecisionsYet(log[..|log| - 1], rid);
    }
  }

  /** From `db`, `p` to `db2`, `p2` at most one decision was added, answered as the sequential map would. */
  ghost predicate Decides(h: Hash, rid: nat, db: Db, p: Proc, db2: Db, p2: Proc) {
    && WellStaged(p2) && (p2.req, p2.row, p2.s3Key) == (p.req, p.row, p.s3Key)
    && if |db2.log| <= |db.log| then
         db2.log == db.log && db2.files == db.files && Decided(h, rid, p2) == Decided(h, rid, p)
       else
         var d := db2.log[|db.log|];
         && db2.log == db.log + [d] && d.rid == rid
         && Decided(h, rid, p) == [] && Decided(h, rid, p2) == [d]
         && d.granted == d.cond.Holds(Get(db.files, d.row))
         && db2.files == SeqApply(db.files, d)
  }

  lemma {:induction false} CommitDecides(h: Hash, db: Db, rid: nat, p: Proc, ok: bool)
    requires p.stage.Commit? && WellStaged(p)
    ensures var (db2, p2) := StepProc(h, db, rid, p, ok);
            Decides(h, rid, db, p, db2, p2)
  {
  }

  lemma {:induction false} EarlyStepDecides(h: Hash, db: Db, rid: nat, p: Proc, ok: bool)
    requires (p.stage.Guard? || p.stage.Look? || p.stage.Upload?) && WellStaged(p)
    ensures var (db2, p2) := StepProc(h, db, rid, p, ok);
            Decides(h, rid, db, p, db2, p2)
  {
  }

  lemma {:induction false} LateStepDecides(h: Hash, db: Db, rid: nat, p: Proc, ok: bool)
    requires (p.stage.Probe? || p.stage.Sweep? || p.stage.Audit? || p.stage.Append?) && WellStaged(p)
    ensures var (db2, p2) := StepProc(h, db, rid, p, ok);
            Decides(h, rid, db, p, db2, p2)
  {
  }

  /** Every statement of every handler adds at most one decision, answered as the sequential map would. */
  lemma {:induction false} StepDecides(h: Hash, db: Db, rid: nat, p: Proc, ok: bool)
    requires !p.stage.Finished? && WellStaged(p)
    ensures var (db2, p2) := StepProc(h, db, rid, p, ok);
            Decides(h, rid, db, p, db2, p2)
  {
    if p.stage.Commit? {
      CommitDecides(h, db, rid, p, ok);
    } else if p.stage.Guard? || p.stage.Look? || p.stage.Upload? {
      EarlyStepDecides(h, db, rid, p, ok);
    } else {
      LateStepDecides(h, db, rid, p, ok);
    }
  }

  lemma {:induction false} DecidesKeepsInv(h: Hash, files: Files, s: Sys, i: nat, db2: Db, p2: Proc)
    requires Inv(h, files, s) && i < |s.procs| && Decides(h, i, s.db, s.procs[i], db2, p2)
    ensures Inv(h, files, Sys(db2, s.procs[i := p2]))
  {
    if |db2.log| > |s.db.log| {
      SoundSnoc(files, s.db.log, db2.log[|s.db.log|]);
    }
  }

  lemma {:induction false} ArriveKeepsInv(h: Hash, files: Files, s: Sys, q: Request)
    requires Inv(h, files, s)
    ensures Inv(h, files, Next(h, s, Arrive(q)))
  {
    NewProcKeepsInv(h, files, s, NewProc(q));
  }

  lemma {:induction false} NewProcKeepsInv(h: Hash, files: Files, s: Sys, p: Proc)
    requires Inv(h, files, s) && p.stage.Guard? && WellStaged(p)
    ensures Inv(h, files, Sys(s.db, s.procs + [p]))
  {
    NoDecisionsYet(s.db.log, |s.procs|);
  }

  lemma {:induction false} RunKeepsInv(h: Hash, files: Files, s: Sys, i: nat, ok: bool)
    requires Inv(h, files, s) && i < |s.procs| && !s.procs[i].stage.Finished?
    ensures Inv(h, files, Next(h, s, Run(i, ok)))
  {
    var db2, p2 := RunDecides(h, s, i, ok);
    DecidesKeepsInv(h, files, s, i, db2, p2);
  }

  /** What the step of request `i` leads to, known only by what it decides. */
  lemma {:induction false} RunDecides(h: Hash, s: Sys, i: nat, ok: bool) returns (db2: Db, p2: Proc)
    requires i < |s.procs| && !s.procs[i].stage.Finished? && WellStaged(s.procs[i])
    ensures Next(h, s, Run(i, ok)) == Sys(db2, s.procs[i := p2]) && Decides(h, i, s.db, s.procs[i], db2, p2)
  {
    StepDecides(h, s.db, i, s.procs[i], ok);
    db2, p2 := StepProc(h, s.db, i, s.procs[i], ok).0, StepProc(h, s.db, i, s.procs[i], ok).1;
  }

  lemma {:induction false} NextKeepsInv(h: Hash, files: Files, s: Sys, st: Step)
    requires Inv(h, files, s)
    ensures Inv(h, files, Next(h, s, st))
  {
    match st
    case Arrive(q) => ArriveKeepsInv(h, files, s, q);
    case Run(i, ok) =>
      if i < |s.procs| && !s.procs[i].stage.Finished? {
        RunKeepsInv(h, files, s, i, ok);
      }
  }

  lemma {:induction false} ExecKeepsInv(h: Hash, files: Files, s: Sys, steps: seq<Step>)
    requires Inv(h, files, s)
    ensures Inv(h, files, Exec(h, s, steps))
  {
    if steps != [] {
      ExecKeepsInv(h, files, s, steps[..|steps| - 1]);
      NextKeepsInv(h, files, Exec(h, s, steps[..|steps| - 1]), steps[|steps| - 1]);
    }
  }

  /**
   Under every interleaving of any number of requests the `files` table is the outcome of running the
   decisions one after the other on a conditional map; a request answered 2xx has exactly one decision, granted;
   one answered 409 or 404 has exactly one, refused; any other finished request has none.
   */
  lemma {:induction false} WritesAreLinearizable(
    h: Hash, files: Files, objects: map<string, Bytes>, steps: seq<Step>)
    ensures var s := Exec(h, Start(files, objects), steps);
            && s.db.files == SeqRun(files, s.db.log)
            && Sound(files, s.db.log)
            && (forall i :: 0 <= i < |s.procs| ==> DecisionsOf(s.db.log, i) == Decided(h, i, s.procs[i]))
  {
    ExecKeepsInv(h, files, Start(files, objects), steps);
  }

  // ---------- real-time order ----------

  lemma {:induction false} FinishedStaysFinished(h: Hash, s: Sys, steps: seq<Step>, a: nat)
    requires a < |s.procs| && s.procs[a].stage.Finished?
    ensures var t := Exec(h, s, steps);
            && a < |t.procs| && t.procs[a] == s.procs[a] && |s.procs| <= |t.procs|
            && s.db.log <= t.db.log
            && forall k :: |s.db.log| <= k < |t.db.log| ==> t.db.log[k].rid != a
  {
    if steps != [] {
      FinishedStaysFinished(h, s, steps[..|steps| - 1], a);
      var m := Exec(h, s, steps[..|steps| - 1]);
      LogGrowsByOwnDecision(h, m, steps[|steps| - 1]);
    }
  }

  lemma {:induction false} LogGrowsByOwnDecision(h: Hash, s: Sys, st: Step)
    ensures var t := Next(h, s, st);
            && s.db.log <= t.db.log
            && forall k :: |s.db.log| <= k < |t.db.log| ==>
                 st.Run? && st.rid < |s.procs| && !s.procs[st.rid].stage.Finished? && t.db.log[k].rid == st.rid
  {
  }

  /** The sequential order respects real time: a request finished before another arrives is decided before it. */
  lemma {:induction false} SequentialOrderRespectsRealTime(
    h: Hash, files: Files, objects: map<string, Bytes>, first: seq<Step>, rest: seq<Step>, i: nat, j: nat)
    requires var s := Exec(h, Start(files, objects), first);
             var t := Exec(h, Start(files, objects), first + rest);
             && i < |t.db.log| && j < |t.db.log|
             && t.db.log[i].rid < |s.procs| && s.procs[t.db.log[i].rid].stage.Finished?
             && t.db.log[j].rid >= |s.procs|
    ensures i < j
  {
    var s := Exec(h, Start(files, objects), first);
    ExecSplit(h, Start(files, objects), first, rest);
    ExecKeepsInv(h, files, Start(files, objects), first);
    var t := Exec(h, s, rest);
    FinishedStaysFinished(h, s, rest, t.db.log[i].rid);
    assert forall k :: 0 <= k < |s.db.log| ==> t.db.log[k].rid < |s.procs|;
  }

  // ---------- no lost update ----------

  /** The row's value in the sequential run just before decision `k`. */
  function Before(files: Files, log: seq<Decision>, k: nat, row: RowKey): Option<string>
    requires k <= |log|
  {
    Get(SeqRun(files, log[..k]), row)
  }

  ghost predicate Writes(d: Decision, row: RowKey, value: Option<string>) {
    d.granted && d.row == row && d.write == value
  }

  lemma {:induction false} SoundAt(files: Files, log: seq<Decision>, k: nat)
    requires Sound(files, log) && k < |log|
    ensures log[k].granted == log[k].cond.Holds(Before(files, log, k, log[k].row))
    ensures SeqRun(files, log[..k + 1]) == SeqApply(SeqRun(files, log[..k]), log[k])
  {
    var n := |log| - 1;
    assert log[..k + 1][..k] == log[..k];
    if k < n {
      SoundAt(files, log[..n], k);
      assert log[..n][..k] == log[..k];
    }
  }

  /** A row that does not hold `e` at position `i` but does at `j` was set to `e` in between. */
  lemma {:induction false} SomeoneWrote(files: Files, log: seq<Decision>, i: nat, j: nat, row: RowKey, e: string)
      returns (k: nat)
    requires Sound(files, log) && i <= j <= |log|
    requires Before(files, log, i, row) != Some(e) && Before(files, log, j, row) == Some(e)
    ensures i <= k < j && Writes(log[k], row, Some(e))
  {
    SoundAt(files, log, j - 1);
    if Before(files, log, j - 1, row) == Some(e) {
      k := SomeoneWrote(files, log, i, j - 1, row, e);
    } else {
      k := j - 1;
    }
  }

  /**
   No lost update: if a commit granted under If-Match `e` comes after a commit that left the row with anything
   else than `e`, then some upsert between the two wrote `e` again.
   */
  lemma {:induction false} NoLostUpdate(files: Files, log: seq<Decision>, k: nat, j: nat, e: string) returns (m: nat)
    requires Sound(files, log) && k < j < |log|
    requires log[k].granted && log[k].write != Some(e)
    requires log[j].granted && log[j].row == log[k].row && log[j].cond == IfEtag(e)
    ensures k < m < j && Writes(log[m], log[k].row, Some(e))
  {
    SoundAt(files, log, k);
    SoundAt(files, log, j);
    m := SomeoneWrote(files, log, k + 1, j, log[k].row, e);
  }

  /**
   In every run, two commits on one path granted under the same If-Match `e` have an upsert of `e` at or after the
   first and before the second; so if no upsert writes `e`, at most one of them is granted.
   */
  lemma {:induction false} SameIfMatchTwice(
    h: Hash, files: Files, objects: map<string, Bytes>, steps: seq<Step>, i: nat, j: nat, e: string)
    requires var log := Exec(h, Start(files, objects), steps).db.log;
             && i < j < |log| && log[i].row == log[j].row
             && log[i].granted && log[j].granted && log[i].cond == log[j].cond == IfEtag(e)
    ensures var log := Exec(h, Start(files, objects), steps).db.log;
            exists m :: i <= m < j && Writes(log[m], log[i].row, Some(e))
  {
    WritesAreLinearizable(h, files, objects, steps);
    var log := Exec(h, Start(files, objects), steps).db.log;
    if log[i].write != Some(e) {
      var m := NoLostUpdate(files, log, i, j, e);
    } else {
      assert Writes(log[i], log[i].row, Some(e));
    }
  }

  // ---------- what 409 and 404 say ----------

  lemma {:induction false} DecisionsHave(log: seq<Decision>, k: nat)
    requires k < |log|
    ensures log[k] in DecisionsOf(log, log[k].rid)
  {
    if k < |log| - 1 {
      DecisionsHave(log[..|log| - 1], k);
    }
  }

  /** The last commit on the row among the decisions from position `from` on. */
  function LastCommit(log: seq<Decision>, from: nat, row: RowKey): Option<Decision> {
    if |log| <= from then None
    else
      var d := log[|log| - 1];
      if d.granted && d.row == row then Some(d) else LastCommit(log[..|log| - 1], from, row)
  }

  /** A row holds what the last commit since `from` wrote, or what it held then. */
  lemma {:induction false} LastCommitDecides(files: Files, log: seq<Decision>, from: nat, row: RowKey)
    requires Sound(files, log) && from <= |log|
    ensures Get(SeqRun(files, log), row) == match LastCommit(log, from, row)
                                            case None => Before(files, log, from, row)
                                            case Some(d) => d.write
  {
    if from == |log| {
      assert log[..from] == log;
    } else {
      LastCommitDecides(files, log[..|log| - 1], from, row);
      assert log[..|log| - 1][..from] == log[..from];
    }
  }

  /** A refused DELETE's answer is true of what the row was: 409 of a row with another etag, 404 of no row. */
  predicate Tells(stage: Stage, was: Option<string>) {
    stage == Finished(if was.Some? then 409 else 404)
  }

  /**
   The answer to a refused DELETE is true of the row it was refused on if and only if the last commit on the row
   between the DELETE and its probe, if there is one, left the row present exactly when it was present then. An
   intervening PUT is harmless; an intervening create or delete is not. A failed probe always answers 404.
   */
  lemma {:induction false} RefusalReasonIsTrueIff(h: Hash, files: Files, s: Sys, i: nat, k: nat, ok: bool)
    requires Inv(h, files, s) && i < |s.procs| && s.procs[i].stage.Probe?
    requires k < |s.db.log| && s.db.log[k].rid == i
    ensures var was := Before(files, s.db.log, k, s.procs[i].row);
            var last := LastCommit(s.db.log, k, s.procs[i].row);
            && was != Some(s.procs[i].req.ifMatch)
            && (Tells(Next(h, s, Run(i, ok)).procs[i].stage, was) <==>
                if ok then last.None? || last.value.write.Some? == was.Some? else was.None?)
  {
    var log, p := s.db.log, s.procs[i];
    DecisionsHave(log, k);
    assert log[k] == DecisionOf(h, i, p, false);
    SoundAt(files, log, k);
    LastCommitDecides(files, log, k, p.row);
  }

  lemma {:induction false} NoLastCommit(log: seq<Decision>, from: nat, row: RowKey)
    requires forall m :: from <= m < |log| ==> !(log[m].granted && log[m].row == row)
    ensures LastCommit(log, from, row) == None
  {
    if from < |log| {
      NoLastCommit(log[..|log| - 1], from, row);
    }
  }

  /** In particular the answer is true, save for a failed probe, if nothing was committed on the row in between. */
  lemma {:induction false} RefusalReasonIsTrue(h: Hash, files: Files, s: Sys, i: nat, k: nat, ok: bool)
    requires Inv(h, files, s) && i < |s.procs| && s.procs[i].stage.Probe?
    requires k < |s.db.log| && s.db.log[k].rid == i
    requires forall m :: k < m < |s.db.log| ==> !(s.db.log[m].granted && s.db.log[m].row == s.procs[i].row)
    ensures var was := Before(files, s.db.log, k, s.procs[i].row);
            && was != Some(s.procs[i].req.ifMatch)
            && (Next(h, s, Run(i, ok)).procs[i].stage == Finished(409) <==> ok && was.Some?)
            && (Next(h, s, Run(i, ok)).procs[i].stage == Finished(404) <==> !(ok && was.Some?))
  {
    var log, p := s.db.log, s.procs[i];
    DecisionsHave(log, k);
    assert log[k] == DecisionOf(h, i, p, false);
    NoLastCommit(log, k, p.row);
    RefusalReasonIsTrueIff(h, files, s, i, k, ok);
  }
}
