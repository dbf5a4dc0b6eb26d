/**
 Audit rows against commits: under every interleaving every committed request is named once in the audit log, or its
 row was lost or is still to come, with its own actor, action, path and new etag.
 */
module AuditTrail {
  import opened Common
  import opened Resources
  import opened WriteProtocol
  import opened Linearizability
  import opened Rebuild

  // ---------- requests keep their origin ----------

  /** The requests that arrived, in order; malformed ones are answered before they get a handler. */
  function Arrivals(steps: seq<Step>): seq<Request> {
    if steps == [] then []
    else
      var st := steps[|steps| - 1];
      Arrivals(steps[..|steps| - 1]) + if st.Arrive? && st.req.Valid() then [st.req] else []
  }

  /** Processes are those of the requests that arrived, and decisions are theirs. */
  ghost predicate Original(s: Sys, arrivals: seq<Request>) {
    && |s.procs| == |arrivals|
    && (forall i :: 0 <= i < |s.procs| ==> s.procs[i].req == arrivals[i])
    && (forall k :: 0 <= k < |s.db.log| ==> s.db.log[k].rid < |arrivals| && s.db.log[k].req == arrivals[s.db.log[k].rid])
  }

  lemma {:induction false} RunKeepsOrigin(h: Hash, s: Sys, arrivals: seq<Request>, i: nat, ok: bool)
    requires Original(s, arrivals) && i < |s.procs| && !s.procs[i].stage.Finished? && WellStaged(s.procs[i])
    ensures Original(Next(h, s, Run(i, ok)), arrivals)
  {
    var db2, p2 := RunDecides(h, s, i, ok);
    if |db2.log| > |s.db.log| {
      DecidedIsOwn(h, i, p2, db2.log[|s.db.log|]);
    }
  }

  /** In every run, request by request, what runs and what is decided is what arrived. */
  lemma {:induction false} RequestsAreTheArrivals(h: Hash, files: Files, objects: map<string, Bytes>, steps: seq<Step>)
    ensures Original(Exec(h, Start(files, objects), steps), Arrivals(steps))
  {
    if steps != [] {
      var n := |steps| - 1;
      RequestsAreTheArrivals(h, files, objects, steps[..n]);
      ExecKeepsInv(h, files, Start(files, objects), steps[..n]);
      var s := Exec(h, Start(files, objects), steps[..n]);
      var st := steps[n];
      if st.Run? && st.rid < |s.procs| && !s.procs[st.rid].stage.Finished? {
        RunKeepsOrigin(h, s, Arrivals(steps[..n]), st.rid, st.ok);
      }
      assert Arrivals(steps[..n]) + [] == Arrivals(steps[..n]);
    }
  }

  // ---------- what an audit row must say ----------

  /** An audit row without its etag_before. */
  datatype Fact = Fact(action: Action, row: RowKey, after: Option<string>, actor: string)

  function FactOf(a: AuditRow): Fact {
    Fact(a.action, a.row, a.after, a.actor)
  }

  function Facts(rows: seq<AuditRow>): seq<Fact> {
    if rows == [] then [] else Facts(rows[..|rows| - 1]) + [FactOf(rows[|rows| - 1])]
  }

  /** What the audit log must have of a committed request. */
  function Due(h: Hash, q: Request): Fact {
    var action :=
      match q.res
      case Issue(_, _) => (match q.verb case Put => PutIssue case Post => PostIssue case Delete => DeleteIssue)
      case Attachment(_, _, _) => if q.verb == Delete then DeleteAttachment else PutAttachment
      case ProjectJson(_) => PutProjectJson;
    var path :=
      match q.res
      case Issue(_, id) => id + ".md"
      case Attachment(_, id, name) => id + "/" + name
      case ProjectJson(_) => "project.json";
    Fact(action, RowKey(q.res.project, path), if q.verb == Delete then None else Some(h(q.body)), q.actor)
  }

  lemma {:induction false} AuditSaysWhatIsDue(h: Hash, p: Proc)
    requires IsHash(h) && p.req.Valid() && p.row == Row(p.req.res)
    ensures FactOf(AuditOf(h, p)) == Due(h, p.req)
  {
    assert h(p.req.body) != "";
  }

  // ---------- conservation ----------

  /** What is due for the commits, in commit order. */
  function DueForCommits(h: Hash, log: seq<Decision>): seq<Fact> {
    if log == [] then []
    else DueForCommits(h, log[..|log| - 1]) + if log[|log| - 1].granted then [Due(h, log[|log| - 1].req)] else []
  }

  /** The audit row a request between its commit and its audit insert still owes. */
  function Owes(h: Hash, p: Proc): seq<Fact> {
    if Unaudited(p) then [Due(h, p.req)] else []
  }

  function AllOwed(h: Hash, procs: seq<Proc>): seq<Fact> {
    if procs == [] then [] else AllOwed(h, procs[..|procs| - 1]) + Owes(h, procs[|procs| - 1])
  }

  /** How many times a request owes the row. */
  function OwedTimes(h: Hash, f: Fact): Proc -> nat {
    p => Count(Owes(h, p), f)
  }

  ghost predicate Balanced(h: Hash, s: Sys, f: Fact) {
    Count(Facts(s.db.audit), f) + Count(Facts(s.db.unlogged), f) + Sum(OwedTimes(h, f), s.procs)
    == Count(DueForCommits(h, s.db.log), f)
  }

  lemma {:induction false} FactsSnoc(rows: seq<AuditRow>, a: AuditRow)
    ensures Facts(rows + [a]) == Facts(rows) + [FactOf(a)]
  {
    assert (rows + [a])[..|rows|] == rows;
  }

  lemma {:induction false} DueSnoc(h: Hash, log: seq<Decision>, d: Decision)
    ensures DueForCommits(h, log + [d]) == DueForCommits(h, log) + if d.granted then [Due(h, d.req)] else []
  {
    assert (log + [d])[..|log|] == log;
  }

  lemma {:induction false} OwedIsSum(h: Hash, procs: seq<Proc>, f: Fact)
    ensures Count(AllOwed(h, procs), f) == Sum(OwedTimes(h, f), procs)
  {
    if procs != [] {
      var n := |procs| - 1;
      OwedIsSum(h, procs[..n], f);
      CountAppend(AllOwed(h, procs[..n]), Owes(h, procs[n]), f);
    }
  }

  /** A statement commits and then owes its audit row, or writes or loses the owed row, or does neither. */
  ghost predicate Pays(h: Hash, rid: nat, db: Db, p: Proc, db2: Db, p2: Proc) {
    var x := Due(h, p.req);
    || (&& (db2.audit, db2.unlogged) == (db.audit, db.unlogged) && Owes(h, p) == [] && Owes(h, p2) == [x]
        && db2.log == db.log + [DecisionOf(h, rid, p, true)])
    || (&& Owes(h, p) == [x] && Owes(h, p2) == [] && db2.log == db.log
        && (|| (Facts(db2.audit), db2.unlogged) == (Facts(db.audit) + [x], db.unlogged)
            || (db2.audit, Facts(db2.unlogged)) == (db.audit, Facts(db.unlogged) + [x])))
    || (&& (db2.audit, db2.unlogged) == (db.audit, db.unlogged) && Owes(h, p) == Owes(h, p2)
        && (db2.log == db.log || db2.log == db.log + [DecisionOf(h, rid, p, false)]))
  }

  predicate Unaudited(p: Proc) {
    p.stage.Sweep? || p.stage.Audit?
  }

  /** The same, by the row as it is written. */
  ghost predicate Writes(h: Hash, rid: nat, db: Db, p: Proc, db2: Db, p2: Proc) {
    && p2.req == p.req
    && (|| (&& (db2.audit, db2.unlogged) == (db.audit, db.unlogged) && !Unaudited(p) && Unaudited(p2)
            && db2.log == db.log + [DecisionOf(h, rid, p, true)])
        || (&& Unaudited(p) && !Unaudited(p2) && db2.log == db.log
            && (|| (db2.audit, db2.unlogged) == (db.audit + [AuditOf(h, p)], db.unlogged)
                || (db2.audit, db2.unlogged) == (db.audit, db.unlogged + [AuditOf(h, p)])))
        || (&& (db2.audit, db2.unlogged) == (db.audit, db.unlogged) && Unaudited(p) == Unaudited(p2)
            && (db2.log == db.log || db2.log == db.log + [DecisionOf(h, rid, p, false)])))
  }

  lemma {:induction false} StepWrites(h: Hash, s: Sys, i: nat, ok: bool) returns (db2: Db, p2: Proc)
    requires i < |s.procs| && !s.procs[i].stage.Finished?
    ensures Next(h, s, Run(i, ok)) == Sys(db2, s.procs[i := p2]) && Writes(h, i, s.db, s.procs[i], db2, p2)
  {
    db2, p2 := StepProc(h, s.db, i, s.procs[i], ok).0, StepProc(h, s.db, i, s.procs[i], ok).1;
  }

  lemma {:induction false} WritingPays(h: Hash, rid: nat, db: Db, p: Proc, db2: Db, p2: Proc)
    requires IsHash(h) && p.req.Valid() && p.row == Row(p.req.res) && Writes(h, rid, db, p, db2, p2)
    ensures Pays(h, rid, db, p, db2, p2)
  {
    AuditSaysWhatIsDue(h, p);
    FactsSnoc(db.audit, AuditOf(h, p));
    FactsSnoc(db.unlogged, AuditOf(h, p));
  }

  lemma {:induction false} PayingBalances(h: Hash, s: Sys, i: nat, db2: Db, p2: Proc, f: Fact)
    requires Balanced(h, s, f) && i < |s.procs| && Pays(h, i, s.db, s.procs[i], db2, p2)
    ensures Balanced(h, Sys(db2, s.procs[i := p2]), f)
  {
    var x := Due(h, s.procs[i].req);
    SumUpdate(OwedTimes(h, f), s.procs, i, p2);
    CountOne(x, f);
    CountSnoc(Facts(s.db.audit), x, f);
    CountSnoc(Facts(s.db.unlogged), x, f);
    CountSnoc(DueForCommits(h, s.db.log), x, f);
    DueSnoc(h, s.db.log, DecisionOf(h, i, s.procs[i], true));
    DueSnoc(h, s.db.log, DecisionOf(h, i, s.procs[i], false));
    assert DueForCommits(h, s.db.log) + [] == DueForCommits(h, s.db.log);
  }

  lemma {:induction false} ArrivalBalances(h: Hash, s: Sys, q: Request, f: Fact)
    requires Balanced(h, s, f)
    ensures Balanced(h, Next(h, s, Arrive(q)), f)
  {
    SumSnoc(OwedTimes(h, f), s.procs, NewProc(q));
  }

  lemma {:induction false} NextBalances(h: Hash, s: Sys, st: Step, f: Fact)
    requires IsHash(h) && Placed(s) && Balanced(h, s, f)
    ensures Balanced(h, Next(h, s, st), f)
  {
    match st
    case Arrive(q) => ArrivalBalances(h, s, q, f);
    case Run(i, ok) =>
      if i < |s.procs| && !s.procs[i].stage.Finished? {
        var db2, p2 := StepWrites(h, s, i, ok);
        WritingPays(h, i, s.db, s.procs[i], db2, p2);
        PayingBalances(h, s, i, db2, p2, f);
      }
  }

  lemma {:induction false} ExecBalances(h: Hash, files: Files, objects: map<string, Bytes>, steps: seq<Step>, f: Fact)
    requires IsHash(h)
    ensures Balanced(h, Exec(h, Start(files, objects), steps), f)
  {
    if steps != [] {
      var n := |steps| - 1;
      ExecBalances(h, files, objects, steps[..n], f);
      ExecKeepsInv(h, files, Start(files, objects), steps[..n]);
      ExecPlaced(h, files, Start(files, objects), steps[..n]);
      NextBalances(h, Exec(h, Start(files, objects), steps[..n]), steps[n], f);
    }
  }

  /**
   Under every interleaving, the audit rows written, those whose insert failed and those still to come are together
   exactly what is due for the committed requests: the requester, the action for its method and kind of resource, the
   path, and the etag it left.
   */
  lemma {:induction false} AuditMatchesCommits(h: Hash, files: Files, objects: map<string, Bytes>, steps: seq<Step>)
    requires IsHash(h)
    ensures var s := Exec(h, Start(files, objects), steps);
            multiset(Facts(s.db.audit)) + multiset(Facts(s.db.unlogged)) + multiset(AllOwed(h, s.procs))
            == multiset(DueForCommits(h, s.db.log))
  {
    var s := Exec(h, Start(files, objects), steps);
    var left := multiset(Facts(s.db.audit)) + multiset(Facts(s.db.unlogged)) + multiset(AllOwed(h, s.procs));
    forall f: Fact
      ensures left[f] == multiset(DueForCommits(h, s.db.log))[f]
    {
      ExecBalances(h, files, objects, steps, f);
      BalancedAsMultisets(h, s, f);
    }
  }

  lemma {:induction false} BalancedAsMultisets(h: Hash, s: Sys, f: Fact)
    requires Balanced(h, s, f)
    ensures multiset(Facts(s.db.audit))[f] + multiset(Facts(s.db.unlogged))[f] + multiset(AllOwed(h, s.procs))[f]
            == multiset(DueForCommits(h, s.db.log))[f]
  {
    CountIsMultiset(Facts(s.db.audit), f);
    CountIsMultiset(Facts(s.db.unlogged), f);
    CountIsMultiset(AllOwed(h, s.procs), f);
    OwedIsSum(h, s.procs, f);
    CountIsMultiset(DueForCommits(h, s.db.log), f);
  }
}
