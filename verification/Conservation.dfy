/**
 Events against commits: nothing is announced that was not committed, every commit is announced, pending or
 lost, and the announced operation and etag are those of the row's true transition.
 */
module Conservation {
  import opened Common
  import opened Resources
  import opened WriteProtocol
  import opened Linearizability

  /** The event that describes a row going from `before` to `after`. */
  function TransitionEvent(res: Resource, before: Option<string>, after: Option<string>, actor: string): Event {
    var op := if after.None? then Deleted else if before.None? then Created else Updated;
    Event(res, if res.ProjectJson? then None else Some(op), after, actor)
  }

  /** The transitions of the granted decisions, as events, in commit order. */
  function CommitEvents(files: Files, log: seq<Decision>): seq<Event> {
    if log == [] then []
    else
      var d, earlier := log[|log| - 1], log[..|log| - 1];
      CommitEvents(files, earlier) +
      if d.granted then [TransitionEvent(d.req.res, Get(SeqRun(files, earlier), d.row), d.write, d.req.actor)] else []
  }

  /** The event a request between its commit and its append still owes. */
  function Owed(h: Hash, p: Proc): seq<Event> {
    if p.stage.Sweep? || p.stage.Audit? || p.stage.Append? then [EventOf(h, p.req)] else []
  }

  function Pending(h: Hash, procs: seq<Proc>): seq<Event> {
    if procs == [] then [] else Pending(h, procs[..|procs| - 1]) + Owed(h, procs[|procs| - 1])
  }

  /** How many times a request owes the event. */
  function OwedTimes(h: Hash, e: Event): Proc -> nat {
    p => Count(Owed(h, p), e)
  }

  ghost predicate Conserved(h: Hash, files: Files, s: Sys, e: Event) {
    Count(s.db.events, e) + Count(s.db.lost, e) + Sum(OwedTimes(h, e), s.procs) == Count(CommitEvents(files, s.db.log), e)
  }

  lemma {:induction false} PendingIsSum(h: Hash, procs: seq<Proc>, e: Event)
    ensures Count(Pending(h, procs), e) == Sum(OwedTimes(h, e), procs)
  {
    if procs != [] {
      var n := |procs| - 1;
      PendingIsSum(h, procs[..n], e);
      CountAppend(Pending(h, procs[..n]), Owed(h, procs[n]), e);
    }
  }

  /**
   A granted request's announcement is its row's true transition. A row announced as deleted was there, except for
   attachments: their DELETE checks nothing and announces the deletion of a missing one as well.
   */
  lemma {:induction false} EventDescribesTransition(h: Hash, q: Request, current: Option<string>)
    requires q.Condition().Holds(current) && !q.LacksCondition()
    ensures EventOf(h, q) == TransitionEvent(q.res, current, q.NewEtag(h), q.actor)
    ensures EventOf(h, q).op == Some(Deleted) && !q.res.Attachment? ==> current == Some(q.ifMatch)
  {
  }

  /** A statement grants its request and then owes its event, or settles the owed event, or does neither. */
  ghost predicate Settles(h: Hash, rid: nat, db: Db, p: Proc, db2: Db, p2: Proc) {
    var e := EventOf(h, p.req);
    || (// the commit
        && (db2.events, db2.lost) == (db.events, db.lost)
        && Owed(h, p) == [] && Owed(h, p2) == [e]
        && db2.log == db.log + [DecisionOf(h, rid, p, true)]
        && !p.req.LacksCondition() && p.req.Condition().Holds(Get(db.files, p.row)))
    || (// the append
        && ((db2.events, db2.lost) == (db.events + [e], db.lost) || (db2.events, db2.lost) == (db.events, db.lost + [e]))
        && Owed(h, p) == [e] && Owed(h, p2) == [] && db2.log == db.log)
    || (// any other statement
        && (db2.events, db2.lost) == (db.events, db.lost)
        && Owed(h, p) == Owed(h, p2)
        && (db2.log == db.log || db2.log == db.log + [DecisionOf(h, rid, p, false)]))
  }

  lemma {:induction false} StepSettles(h: Hash, db: Db, rid: nat, p: Proc, ok: bool)
    requires !p.stage.Finished? && WellStaged(p)
    ensures var (db2, p2) := StepProc(h, db, rid, p, ok);
            Settles(h, rid, db, p, db2, p2)
  {
  }

  lemma {:induction false} CommitEventsSnoc(files: Files, log: seq<Decision>, d: Decision)
    ensures CommitEvents(files, log + [d]) == CommitEvents(files, log) +
            if d.granted then [TransitionEvent(d.req.res, Get(SeqRun(files, log), d.row), d.write, d.req.actor)] else []
  {
    assert (log + [d])[..|log|] == log;
  }

  /** A commit moves one event from nowhere to both sides. */
  lemma {:induction false} CommitConserves(h: Hash, files: Files, s: Sys, i: nat, db2: Db, p2: Proc, e: Event)
    requires s.db.files == SeqRun(files, s.db.log) && Conserved(h, files, s, e) && i < |s.procs|
    requires Owed(h, s.procs[i]) == [] && Owed(h, p2) == [EventOf(h, s.procs[i].req)]
    requires (db2.events, db2.lost) == (s.db.events, s.db.lost) && db2.log == s.db.log + [DecisionOf(h, i, s.procs[i], true)]
    requires !s.procs[i].req.LacksCondition() && s.procs[i].req.Condition().Holds(Get(s.db.files, s.procs[i].row))
    ensures Conserved(h, files, Sys(db2, s.procs[i := p2]), e)
  {
    var (p, x) := (s.procs[i], EventOf(h, s.procs[i].req));
    SumUpdate(OwedTimes(h, e), s.procs, i, p2);
    CountOne(x, e);
    CommitEventsSnoc(files, s.db.log, DecisionOf(h, i, p, true));
    EventDescribesTransition(h, p.req, Get(s.db.files, p.row));
    CountSnoc(CommitEvents(files, s.db.log), x, e);
  }

  /** An append, or its failure, moves the owed event to the table or to the lost ones. */
  lemma {:induction false} AppendConserves(h: Hash, files: Files, s: Sys, i: nat, db2: Db, p2: Proc, e: Event)
    requires Conserved(h, files, s, e) && i < |s.procs|
    requires var x := EventOf(h, s.procs[i].req);
             && (|| (db2.events, db2.lost) == (s.db.events + [x], s.db.lost)
                 || (db2.events, db2.lost) == (s.db.events, s.db.lost + [x]))
             && Owed(h, s.procs[i]) == [x] && Owed(h, p2) == [] && db2.log == s.db.log
    ensures Conserved(h, files, Sys(db2, s.procs[i := p2]), e)
  {
    var x := EventOf(h, s.procs[i].req);
    SumUpdate(OwedTimes(h, e), s.procs, i, p2);
    CountOne(x, e);
    CountSnoc(s.db.events, x, e);
    CountSnoc(s.db.lost, x, e);
  }

  lemma {:induction false} SettlesConserves(h: Hash, files: Files, s: Sys, i: nat, db2: Db, p2: Proc, e: Event)
    requires s.db.files == SeqRun(files, s.db.log) && Conserved(h, files, s, e) && i < |s.procs|
    requires Settles(h, i, s.db, s.procs[i], db2, p2)
    ensures Conserved(h, files, Sys(db2, s.procs[i := p2]), e)
  {
    if Owed(h, p2) == Owed(h, s.procs[i]) {
      SumUpdate(OwedTimes(h, e), s.procs, i, p2);
      CommitEventsSnoc(files, s.db.log, DecisionOf(h, i, s.procs[i], false));
      assert CommitEvents(files, s.db.log) + [] == CommitEvents(files, s.db.log);
    } else if Owed(h, p2) == [] {
      AppendConserves(h, files, s, i, db2, p2, e);
    } else {
      CommitConserves(h, files, s, i, db2, p2, e);
    }
  }

  lemma {:induction false} RunConserves(h: Hash, files: Files, s: Sys, i: nat, ok: bool, e: Event)
    requires s.db.files == SeqRun(files, s.db.log) && Conserved(h, files, s, e)
    requires i < |s.procs| && !s.procs[i].stage.Finished? && WellStaged(s.procs[i])
    ensures Conserved(h, files, Next(h, s, Run(i, ok)), e)
  {
    var db2, p2 := RunSettles(h, s, i, ok);
    SettlesConserves(h, files, s, i, db2, p2, e);
  }

  /** What the step of request `i` leads to, known only by what it settles. */
  lemma {:induction false} RunSettles(h: Hash, s: Sys, i: nat, ok: bool) returns (db2: Db, p2: Proc)
    requires i < |s.procs| && !s.procs[i].stage.Finished? && WellStaged(s.procs[i])
    ensures Next(h, s, Run(i, ok)) == Sys(db2, s.procs[i := p2]) && Settles(h, i, s.db, s.procs[i], db2, p2)
  {
    StepSettles(h, s.db, i, s.procs[i], ok);
    db2, p2 := StepProc(h, s.db, i, s.procs[i], ok).0, StepProc(h, s.db, i, s.procs[i], ok).1;
  }

  lemma {:induction false} ArriveConserves(h: Hash, files: Files, s: Sys, q: Request, e: Event)
    requires Conserved(h, files, s, e)
    ensures Conserved(h, files, Next(h, s, Arrive(q)), e)
  {
    SumSnoc(OwedTimes(h, e), s.procs, NewProc(q));
  }

  lemma {:induction false} NextConserves(h: Hash, files: Files, s: Sys, st: Step, e: Event)
    requires Inv(h, files, s) && Conserved(h, files, s, e)
    ensures Conserved(h, files, Next(h, s, st), e)
  {
    match st
    case Arrive(q) => ArriveConserves(h, files, s, q, e);
    case Run(i, ok) =>
      if i < |s.procs| && !s.procs[i].stage.Finished? {
        RunConserves(h, files, s, i, ok, e);
      }
  }

  lemma {:induction false} ExecConserves(h: Hash, files: Files, s: Sys, steps: seq<Step>, e: Event)
    requires Inv(h, files, s) && Conserved(h, files, s, e)
    ensures Conserved(h, files, Exec(h, s, steps), e)
  {
    if steps != [] {
      var earlier, st := steps[..|steps| - 1], steps[|steps| - 1];
      ExecConserves(h, files, s, earlier, e);
      ExecKeepsInv(h, files, s, earlier);
      NextConserves(h, files, Exec(h, s, earlier), st, e);
    }
  }

  /**
   Under every interleaving, appended events, failed appends and requests between commit and append together are
   exactly the committed transitions, each with its true operation and etag.
   */
  lemma {:induction false} EventsMatchCommits(h: Hash, files: Files, objects: map<string, Bytes>, steps: seq<Step>)
    ensures var s := Exec(h, Start(files, objects), steps);
            multiset(s.db.events) + multiset(s.db.lost) + multiset(Pending(h, s.procs))
            == multiset(CommitEvents(files, s.db.log))
  {
    var s := Exec(h, Start(files, objects), steps);
    var left := multiset(s.db.events) + multiset(s.db.lost) + multiset(Pending(h, s.procs));
    forall e: Event
      ensures left[e] == multiset(CommitEvents(files, s.db.log))[e]
    {
      ExecConserves(h, files, Start(files, objects), steps, e);
      ConservedAsMultisets(h, files, s, e);
    }
  }

  lemma {:induction false} ConservedAsMultisets(h: Hash, files: Files, s: Sys, e: Event)
    requires Conserved(h, files, s, e)
    ensures multiset(s.db.events)[e] + multiset(s.db.lost)[e] + multiset(Pending(h, s.procs))[e]
            == multiset(CommitEvents(files, s.db.log))[e]
  {
    CountIsMultiset(s.db.events, e);
    CountIsMultiset(s.db.lost, e);
    CountIsMultiset(Pending(h, s.procs), e);
    PendingIsSum(h, s.procs, e);
    CountIsMultiset(CommitEvents(files, s.db.log), e);
  }
}
