/**
 When rows agree with their S3 objects although requests overlap: exactly, from the uploads, sweeps and commits of a
 run.
 */
module Agreement {
  import opened Common
  import opened Resources
  import opened WriteProtocol
  import opened Linearizability
  import opened Rebuild

  // ---------- objects from transfers ----------

  function Transferred(objects: map<string, Bytes>, x: Transfer): map<string, Bytes> {
    match x
    case Uploaded(_, key, body) => objects[key := body]
    case Swept(_, key) => objects - {key}
  }

  function FoldTransfers(objects: map<string, Bytes>, transfers: seq<Transfer>): map<string, Bytes> {
    if transfers == [] then objects
    else Transferred(FoldTransfers(objects, transfers[..|transfers| - 1]), transfers[|transfers| - 1])
  }

  function LastTransfer(transfers: seq<Transfer>, key: string): Option<Transfer> {
    if transfers == [] then None
    else
      var x := transfers[|transfers| - 1];
      if x.key == key then Some(x) else LastTransfer(transfers[..|transfers| - 1], key)
  }

  /** A key holds what its last transfer left, or what it held at the start. */
  lemma {:induction false} LastTransferDecides(objects: map<string, Bytes>, transfers: seq<Transfer>, key: string)
    ensures Get(FoldTransfers(objects, transfers), key) == match LastTransfer(transfers, key)
                                                           case None => Get(objects, key)
                                                           case Some(Uploaded(_, _, body)) => Some(body)
                                                           case Some(Swept(_, _)) => None
  {
    if transfers != [] {
      LastTransferDecides(objects, transfers[..|transfers| - 1], key);
    }
  }

  lemma {:induction false} LastTransferIsThere(transfers: seq<Transfer>, x: Transfer)
    requires x in transfers
    ensures LastTransfer(transfers, x.key).Some?
  {
    var n := |transfers| - 1;
    if transfers[n].key != x.key {
      assert transfers == transfers[..n] + [transfers[n]];
      LastTransferIsThere(transfers[..n], x);
    }
  }

  function UploadOf(rid: nat, p: Proc): Transfer {
    Uploaded(rid, p.s3Key, p.req.body)
  }

  /** A PUT or POST commits only after its upload. */
  predicate UploadsFirst(p: Proc) {
    p.stage.Commit? && !p.req.verb.Delete? ==> p.uploaded
  }

  /** One statement uploads its body, or sweeps its key, or transfers nothing; what it grants was uploaded before. */
  ghost predicate Transfers(h: Hash, rid: nat, db: Db, p: Proc, db2: Db, p2: Proc) {
    && (p2.req, p2.row, p2.s3Key) == (p.req, p.row, p.s3Key) && UploadsFirst(p2)
    && (|| (db2.objects == db.objects && db2.transfers == db.transfers && p2.uploaded == p.uploaded)
        || (&& !p.req.verb.Delete? && p2.uploaded && db2.log == db.log && db2.transfers == db.transfers + [UploadOf(rid, p)]
            && db2.objects == Transferred(db.objects, UploadOf(rid, p)))
        || (&& p.req.verb.Delete? && p2.uploaded == p.uploaded && db2.log == db.log
            && db2.transfers == db.transfers + [Swept(rid, p.s3Key)]
            && db2.objects == Transferred(db.objects, Swept(rid, p.s3Key))))
    && (|| db2.log == db.log
        || db2.log == db.log + [DecisionOf(h, rid, p, false)]
        || (db2.log == db.log + [DecisionOf(h, rid, p, true)] && (p.req.verb.Delete? || p.uploaded)))
  }

  lemma {:induction false} StepTransfers(h: Hash, db: Db, rid: nat, p: Proc, ok: bool)
    requires !p.stage.Finished? && WellStaged(p) && UploadsFirst(p)
    ensures var (db2, p2) := StepProc(h, db, rid, p, ok);
            Transfers(h, rid, db, p, db2, p2)
  {
  }

  /** Each transfer is of the key, and the body, of the request that made it. */
  ghost predicate Authored(procs: seq<Proc>, transfers: seq<Transfer>) {
    forall x | x in transfers :: x.rid < |procs| &&
      x == TransferOf(x.rid, procs[x.rid])
  }

  ghost predicate UploadsRecorded(procs: seq<Proc>, transfers: seq<Transfer>) {
    forall i :: 0 <= i < |procs| ==> UploadsFirst(procs[i]) && (procs[i].uploaded ==> UploadOf(i, procs[i]) in transfers)
  }

  /** Every PUT and POST that committed has uploaded. */
  ghost predicate GrantsUploaded(log: seq<Decision>, transfers: seq<Transfer>) {
    forall d | d in log && d.granted && !d.req.verb.Delete? ::
      Uploaded(d.rid, S3Key(d.req.res), d.req.body) in transfers
  }

  ghost predicate Carried(objects: map<string, Bytes>, s: Sys) {
    && s.db.objects == FoldTransfers(objects, s.db.transfers)
    && Authored(s.procs, s.db.transfers)
    && UploadsRecorded(s.procs, s.db.transfers)
    && GrantsUploaded(s.db.log, s.db.transfers)
  }

  lemma {:induction false} FoldTransfersSnoc(objects: map<string, Bytes>, transfers: seq<Transfer>, x: Transfer)
    ensures FoldTransfers(objects, transfers + [x]) == Transferred(FoldTransfers(objects, transfers), x)
  {
    assert (transfers + [x])[..|transfers|] == transfers;
  }

  /** The transfer a statement may make. */
  function TransferOf(rid: nat, p: Proc): Transfer {
    if p.req.verb.Delete? then Swept(rid, p.s3Key) else UploadOf(rid, p)
  }

  lemma {:induction false} StillAuthored(procs: seq<Proc>, transfers: seq<Transfer>, i: nat, p2: Proc)
    requires Authored(procs, transfers) && i < |procs| && (p2.req, p2.s3Key) == (procs[i].req, procs[i].s3Key)
    ensures Authored(procs[i := p2], transfers) && Authored(procs[i := p2], transfers + [TransferOf(i, p2)])
  {
  }

  lemma {:induction false} StillRecorded(
    procs: seq<Proc>, transfers: seq<Transfer>, i: nat, p2: Proc, more: seq<Transfer>)
    requires UploadsRecorded(procs, transfers) && i < |procs| && (p2.req, p2.s3Key) == (procs[i].req, procs[i].s3Key)
    requires UploadsFirst(p2) && (p2.uploaded ==> procs[i].uploaded || UploadOf(i, p2) in more)
    ensures UploadsRecorded(procs[i := p2], transfers + more)
  {
  }

  lemma {:induction false} TransfersCarry(
    h: Hash, objects: map<string, Bytes>, s: Sys, i: nat, db2: Db, p2: Proc)
    requires Carried(objects, s) && i < |s.procs| && Transfers(h, i, s.db, s.procs[i], db2, p2)
    requires s.procs[i].s3Key == S3Key(s.procs[i].req.res)
    ensures Carried(objects, Sys(db2, s.procs[i := p2]))
  {
    var more := db2.transfers[|s.db.transfers|..];
    assert db2.transfers == s.db.transfers + more;
    assert more == [] || more == [TransferOf(i, p2)];
    FoldTransfersSnoc(objects, s.db.transfers, TransferOf(i, p2));
    StillAuthored(s.procs, s.db.transfers, i, p2);
    StillRecorded(s.procs, s.db.transfers, i, p2, more);
  }

  lemma {:induction false} NextCarries(h: Hash, files: Files, objects: map<string, Bytes>, s: Sys, st: Step)
    requires Inv(h, files, s) && Placed(s) && Carried(objects, s)
    ensures Carried(objects, Next(h, s, st))
  {
    match st
    case Arrive(q) =>
      var procs := s.procs + [NewProc(q)];
      assert UploadsRecorded(procs, s.db.transfers);
    case Run(i, ok) =>
      if i < |s.procs| && !s.procs[i].stage.Finished? {
        StepTransfers(h, s.db, i, s.procs[i], ok);
        var (db2, p2) := StepProc(h, s.db, i, s.procs[i], ok);
        TransfersCarry(h, objects, s, i, db2, p2);
      }
  }

  /**
   After any interleaving the objects are the fold of the uploads and sweeps, each of its own request's key and body,
   and every committed PUT or POST has uploaded.
   */
  lemma {:induction false} TransfersRebuildObjects(
    h: Hash, files: Files, objects: map<string, Bytes>, steps: seq<Step>)
    ensures Carried(objects, Exec(h, Start(files, objects), steps))
  {
    var s0 := Start(files, objects);
    if steps != [] {
      var n := |steps| - 1;
      TransfersRebuildObjects(h, files, objects, steps[..n]);
      ExecKeepsInv(h, files, s0, steps[..n]);
      ExecPlaced(h, files, s0, steps[..n]);
      NextCarries(h, files, objects, Exec(h, s0, steps[..n]), steps[n]);
    }
  }

  lemma {:induction false} LastCommitIsThere(log: seq<Decision>, row: RowKey)
    ensures LastCommit(log, 0, row).Some? ==>
              var d := LastCommit(log, 0, row).value; d in log && d.granted && d.row == row
  {
    if log != [] {
      LastCommitIsThere(log[..|log| - 1], row);
      assert log == log[..|log| - 1] + [log[|log| - 1]];
    }
  }

  /** The last transfer of the key was an upload of a body with this hash. */
  predicate LastUploadHashes(h: Hash, transfers: seq<Transfer>, key: string, etag: string) {
    var x := LastTransfer(transfers, key);
    x.Some? && x.value.Uploaded? && h(x.value.body) == etag
  }

  /**
   After any interleaving, who was last decides. If the last commit on the row is a DELETE, the resource agrees. If
   it is a PUT or POST, the resource agrees if and only if no sweep came after the last upload to the key and that
   upload has the etag of the committed body. Without a commit, the last transfer is held against the initial row.
   */
  lemma {:induction false} AgreesIff(h: Hash, files: Files, objects: map<string, Bytes>, steps: seq<Step>, r: Resource)
    requires r.Valid()
    ensures var db := Exec(h, Start(files, objects), steps).db;
            var row, key := Row(r), S3Key(r);
            Agrees(h, db, r) <==>
              match LastCommit(db.log, 0, row)
              case Some(d) => d.req.verb.Delete? || LastUploadHashes(h, db.transfers, key, h(d.req.body))
              case None =>
                || row !in files
                || LastUploadHashes(h, db.transfers, key, files[row])
                || (LastTransfer(db.transfers, key).None? && key in objects && h(objects[key]) == files[row])
  {
    var s0 := Start(files, objects);
    var s := Exec(h, s0, steps);
    ExecKeepsInv(h, files, s0, steps);
    ExecPlaced(h, files, s0, steps);
    TransfersRebuildObjects(h, files, objects, steps);
    LastTransferDecides(objects, s.db.transfers, S3Key(r));
    LastCommitDecides(files, s.db.log, 0, Row(r));
    LastCommitIsThere(s.db.log, Row(r));
    assert s.db.log[..0] == [];
    if LastCommit(s.db.log, 0, Row(r)).Some? {
      var d := LastCommit(s.db.log, 0, Row(r)).value;
      LoggedDecision(h, files, s, d);
      ResourcesNeverCollide(d.req.res, r);
      if !d.req.verb.Delete? {
        LastTransferIsThere(s.db.transfers, Uploaded(d.rid, S3Key(d.req.res), d.req.body));
      }
    }
  }

  /** What a decision in the log wrote is what its request writes. */
  lemma {:induction false} LoggedDecision(h: Hash, files: Files, s: Sys, d: Decision)
    requires Inv(h, files, s) && Placed(s) && d in s.db.log
    ensures d.write == d.req.NewEtag(h) && d.req.Valid() && d.row == Row(d.req.res)
  {
    var k :| 0 <= k < |s.db.log| && s.db.log[k] == d;
    DecisionsHave(s.db.log, k);
    DecidedIsOwn(h, d.rid, s.procs[d.rid], d);
  }
}
