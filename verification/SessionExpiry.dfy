/**
 Expiry: when rows expire, that a rotation only gets past a row which is neither revoked nor expired, and that an
 expired row is never rotated again.
 */
module SessionExpiry {
  import opened Common
  import opened Sessions

  const DAY: nat := 24 * 3600 * 1_000_000_000

  // ---------- what a rotation has gone through ----------

  /** The rotation is at this stage, on the row it selected. */
  ghost predicate WasAt(s: State, r: nat, seen: Session, stage: Stage) {
    r < |s.rotations| && s.rotations[r].seen == seen && s.rotations[r].stage == stage
  }

  predicate PastFirst(stage: Stage) {
    stage.Unexpired? || PastSecond(stage)
  }

  predicate PastSecond(stage: Stage) {
    stage.Checked? || stage.Stamped? || stage.Done?
  }

  /** What a step does to a rotation there is. */
  lemma {:induction false} RotationStep(s: State, st: Step, r: nat)
    requires r < |s.rotations|
    ensures var t := Next(s, st);
            && r < |t.rotations| && t.rotations[r].seen == s.rotations[r].seen && t.rotations[r].sid == s.rotations[r].sid
            && (PastFirst(t.rotations[r].stage) && !PastFirst(s.rotations[r].stage) ==>
                  && st == CheckExpiry(r) && s.rotations[r].stage.Selected?
                  && s.rotations[r].seen.revoked == None && s.now <= s.rotations[r].seen.expires)
            && (PastSecond(t.rotations[r].stage) && !PastSecond(s.rotations[r].stage) ==>
                  && st == CheckGrace(r) && s.rotations[r].stage.Unexpired?
                  && s.now >= s.rotations[r].seen.lastSeen + 30 * 1_000_000_000)
  {
  }

  /** A rotation that is there now and was not before has just selected a native row of that hash. */
  lemma {:induction false} NewRotation(s: State, st: Step, r: nat)
    requires |s.rotations| <= r < |Next(s, st).rotations|
    ensures var rot := Next(s, st).rotations[r];
            && st.Select? && rot.stage == Selected && rot.sid < |s.sessions| && rot.seen == s.sessions[rot.sid]
            && rot.seen.hash == Sha256(st.tok) && rot.seen.kind == Native
  {
    LookupFinds(s.sessions, st.tok, Native);
  }

  /** In every run, a rotation that is past its first check read the clock no later than its row's expiry, unrevoked. */
  lemma {:induction false} PassedInTime(start: nat, steps: seq<Step>, r: nat) returns (k: nat)
    requires var s := Exec(Start(start), steps); r < |s.rotations| && PastFirst(s.rotations[r].stage)
    ensures k < |steps| && steps[k] == CheckExpiry(r)
    ensures var (s, m) := (Exec(Start(start), steps), Exec(Start(start), steps[..k]));
            && WasAt(m, r, s.rotations[r].seen, Selected)
            && s.rotations[r].seen.revoked == None && m.now <= s.rotations[r].seen.expires
  {
    var n := |steps| - 1;
    var m := Exec(Start(start), steps[..n]);
    k := n;
    if r >= |m.rotations| {
      NewRotation(m, steps[n], r);
      assert false;
    } else {
      RotationStep(m, steps[n], r);
      if PastFirst(m.rotations[r].stage) {
        k := PassedInTime(start, steps[..n], r);
        assert steps[..n][..k] == steps[..k];
      }
    }
  }

  /** In every run, a rotation that is past its second check read the clock at least 30 s after its row was last seen. */
  lemma {:induction false} PassedGrace(start: nat, steps: seq<Step>, r: nat) returns (k: nat)
    requires var s := Exec(Start(start), steps); r < |s.rotations| && PastSecond(s.rotations[r].stage)
    ensures k < |steps| && steps[k] == CheckGrace(r)
    ensures var (s, m) := (Exec(Start(start), steps), Exec(Start(start), steps[..k]));
            && WasAt(m, r, s.rotations[r].seen, Unexpired)
            && m.now >= s.rotations[r].seen.lastSeen + 30 * 1_000_000_000
  {
    var n := |steps| - 1;
    var m := Exec(Start(start), steps[..n]);
    k := n;
    if r >= |m.rotations| {
      NewRotation(m, steps[n], r);
      assert false;
    } else {
      RotationStep(m, steps[n], r);
      if PastSecond(m.rotations[r].stage) {
        k := PassedGrace(start, steps[..n], r);
        assert steps[..n][..k] == steps[..k];
      }
    }
  }

  /** A rotation whose row has expired before its first check is never answered with tokens, however the run goes on. */
  lemma {:induction false} ExpiredNeverPasses(s: State, steps: seq<Step>, r: nat)
    requires r < |s.rotations| && s.rotations[r].stage.Selected? && s.now > s.rotations[r].seen.expires
    ensures var t := Exec(s, steps);
            && r < |t.rotations| && t.rotations[r].seen == s.rotations[r].seen && t.now >= s.now
            && (t.rotations[r].stage.Selected? || t.rotations[r].stage.Rejected?)
  {
    if steps != [] {
      ExpiredNeverPasses(s, steps[..|steps| - 1], r);
      ExpiredStep(Exec(s, steps[..|steps| - 1]), steps[|steps| - 1], r);
    }
  }

  lemma {:induction false} ExpiredStep(s: State, st: Step, r: nat)
    requires r < |s.rotations| && s.now > s.rotations[r].seen.expires
    requires s.rotations[r].stage.Selected? || s.rotations[r].stage.Rejected?
    ensures var t := Next(s, st);
            && r < |t.rotations| && t.rotations[r].seen == s.rotations[r].seen && t.now >= s.now
            && (t.rotations[r].stage.Selected? || t.rotations[r].stage.Rejected?)
  {
  }

  // ---------- when rows expire ----------

  /** The time stamped into the last access token of the session. */
  function LastStamp(minted: seq<Jwt>, sid: nat): Option<nat> {
    if minted == [] then None
    else if minted[|minted| - 1].sid == sid then Some(minted[|minted| - 1].stamped)
    else LastStamp(minted[..|minted| - 1], sid)
  }

  /** A native row expires 30 days after its last token was stamped. */
  ghost predicate NativeExpiry(s: State) {
    && (forall sid :: 0 <= sid < |s.sessions| && s.sessions[sid].kind == Native ==>
          LastStamp(s.minted, sid).Some? && s.sessions[sid].expires == LastStamp(s.minted, sid).value + 30 * DAY)
    && (forall j :: 0 <= j < |s.minted| ==> s.minted[j].sid < |s.sessions|)
  }

  lemma {:induction false} StampSnoc(minted: seq<Jwt>, t: Jwt, sid: nat)
    ensures LastStamp(minted + [t], sid) == if t.sid == sid then Some(t.stamped) else LastStamp(minted, sid)
  {
    assert (minted + [t])[..|minted|] == minted;
  }

  lemma {:induction false} IssueKeepsExpiry(s: State, st: Step)
    requires Inv(s) && NativeExpiry(s) && (st.IssueNative? || st.IssueWeb?)
    ensures NativeExpiry(Next(s, st))
  {
    var t := Next(s, st);
    if st.IssueNative? {
      forall sid | 0 <= sid < |t.sessions| && t.sessions[sid].kind == Native
        ensures LastStamp(t.minted, sid).Some? && t.sessions[sid].expires == LastStamp(t.minted, sid).value + 30 * DAY
      {
        StampSnoc(s.minted, MintJwt(|s.sessions|, st.at), sid);
      }
    }
  }

  lemma {:induction false} UpdateKeepsExpiry(s: State, r: nat, ok: bool)
    requires Inv(s) && NativeExpiry(s)
    ensures NativeExpiry(Next(s, Update(r, ok)))
  {
    var t := Next(s, Update(r, ok));
    if t.minted != s.minted {
      var rot := s.rotations[r];
      forall sid | 0 <= sid < |t.sessions| && t.sessions[sid].kind == Native
        ensures LastStamp(t.minted, sid).Some? && t.sessions[sid].expires == LastStamp(t.minted, sid).value + 30 * DAY
      {
        StampSnoc(s.minted, MintJwt(rot.sid, rot.stage.at), sid);
      }
    }
  }

  lemma {:induction false} NextKeepsExpiry(s: State, st: Step)
    requires Inv(s) && NativeExpiry(s)
    ensures NativeExpiry(Next(s, st))
  {
    if st.IssueNative? || st.IssueWeb? {
      IssueKeepsExpiry(s, st);
    } else if st.Update? {
      UpdateKeepsExpiry(s, st.r, st.ok);
    } else {
      var t := Next(s, st);
      assert t.minted == s.minted && |t.sessions| == |s.sessions|;
      assert forall i :: 0 <= i < |s.sessions| ==>
          t.sessions[i].kind == s.sessions[i].kind && t.sessions[i].expires == s.sessions[i].expires;
    }
  }

  /** In every run, every native row expires exactly 30 days after the stamp of its last access token. */
  lemma {:induction false} NativeRowsExpireAfterThirtyDays(start: nat, steps: seq<Step>)
    ensures NativeExpiry(Exec(Start(start), steps))
  {
    if steps != [] {
      NativeRowsExpireAfterThirtyDays(start, steps[..|steps| - 1]);
      ExecKeepsInv(Start(start), steps[..|steps| - 1]);
      NextKeepsExpiry(Exec(Start(start), steps[..|steps| - 1]), steps[|steps| - 1]);
    }
  }

  /** A web row stays as it was issued, but for when it was last seen and revoked. */
  lemma {:induction false} WebRowStep(s: State, st: Step, sid: nat)
    requires Inv(s) && sid < |s.sessions| && s.sessions[sid].kind == Web
    ensures var t := Next(s, st);
            && sid < |t.sessions| && t.sessions[sid].kind == Web && t.sessions[sid].hash == s.sessions[sid].hash
            && t.sessions[sid].user == s.sessions[sid].user && t.sessions[sid].expires == s.sessions[sid].expires
  {
    if st.Update? && st.r < |s.rotations| {
      assert RotationOk(s, s.rotations[st.r]);
    }
  }

  /** In every run, every web row expires exactly 7 days after the time of its issue, whatever happened to it since. */
  lemma {:induction false} WebRowsExpireAfterSevenDays(start: nat, steps: seq<Step>, sid: nat) returns (k: nat)
    requires var s := Exec(Start(start), steps); sid < |s.sessions| && s.sessions[sid].kind == Web
    ensures k < |steps| && steps[k].IssueWeb? && |Exec(Start(start), steps[..k]).sessions| == sid
    ensures var row := Exec(Start(start), steps).sessions[sid];
            row.user == steps[k].user && row.hash == Sha256(steps[k].tok) && row.expires == steps[k].at + 7 * DAY
  {
    var n := |steps| - 1;
    var m := Exec(Start(start), steps[..n]);
    ExecKeepsInv(Start(start), steps[..n]);
    if sid < |m.sessions| {
      KindIsFixed(m, steps[n], sid);
      WebRowStep(m, steps[n], sid);
      k := WebRowsExpireAfterSevenDays(start, steps[..n], sid);
      assert steps[..n][..k] == steps[..k];
    } else {
      k := n;
      NewWebRow(m, steps[n], sid);
    }
  }

  /** A web row that was not there before has just been issued. */
  lemma {:induction false} NewWebRow(s: State, st: Step, sid: nat)
    requires |s.sessions| <= sid < |Next(s, st).sessions| && Next(s, st).sessions[sid].kind == Web
    ensures var row := Next(s, st).sessions[sid];
            && st.IssueWeb? && |s.sessions| == sid
            && row.user == st.user && row.hash == Sha256(st.tok) && row.expires == st.at + 7 * DAY
  {
  }

  lemma {:induction false} KindIsFixed(s: State, st: Step, sid: nat)
    requires sid < |s.sessions|
    ensures sid < |Next(s, st).sessions| && Next(s, st).sessions[sid].kind == s.sessions[sid].kind
  {
  }
}
