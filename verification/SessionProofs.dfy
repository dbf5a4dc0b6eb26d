/** Whole-run guarantees of rotation and revocation. */
module SessionProofs {
  import opened Common
  import opened Sessions

  // ---------- replaced tokens ----------

  /** The token was given out once, and can no longer be looked up nor become a session's token. */
  ghost predicate Dead(s: State, tok: nat) {
    && tok in s.used
    && (forall i :: 0 <= i < |s.sessions| ==> s.sessions[i].hash != Sha256(tok))
    && (forall r :: 0 <= r < |s.rotations| && s.rotations[r].stage.Stamped? ==> s.rotations[r].stage.tok != tok)
  }

  lemma {:induction false} DeadStaysDead(s: State, st: Step, tok: nat)
    requires Dead(s, tok)
    ensures Dead(Next(s, st), tok)
  {
  }

  lemma {:induction false} DeadForGood(s: State, steps: seq<Step>, tok: nat)
    requires Dead(s, tok)
    ensures Dead(Exec(s, steps), tok)
  {
    if steps != [] {
      DeadForGood(s, steps[..|steps| - 1], tok);
      DeadStaysDead(Exec(s, steps[..|steps| - 1]), steps[|steps| - 1], tok);
    }
  }

  /** A rotation's UPDATE is about to replace the token of this session. */
  predicate ReadyToUpdate(s: State, r: nat) {
    r < |s.rotations| && s.rotations[r].stage.Stamped? && s.rotations[r].sid < |s.sessions|
  }

  /** A refresh token that has been replaced never passes a later lookup, in any run. */
  lemma {:induction false} ReplacedTokenNeverPasses(s: State, r: nat, steps: seq<Step>, kind: Kind)
    requires Inv(s) && ReadyToUpdate(s, r)
    ensures var tok := s.sessions[s.rotations[r].sid].hash.raw;
            Lookup(Exec(Next(s, Update(r, true)), steps).sessions, tok, kind) == None
  {
    var sid, tok := s.rotations[r].sid, s.sessions[s.rotations[r].sid].hash.raw;
    var t := Next(s, Update(r, true));
    assert forall q :: 0 <= q < |s.rotations| ==> RotationOk(s, s.rotations[q]);
    forall q | 0 <= q < |t.rotations| && t.rotations[q].stage.Stamped?
      ensures t.rotations[q].stage.tok != tok
    {
      assert t.rotations[q] == s.rotations[q];
      assert s.sessions[sid].hash == Sha256(tok);
    }
    assert Dead(t, tok);
    DeadForGood(t, steps, tok);
    LookupFinds(Exec(t, steps).sessions, tok, kind);
  }

  // ---------- revocation ----------

  ghost predicate IsRevoked(s: State, sid: nat) {
    sid < |s.sessions| && s.sessions[sid].revoked.Some?
  }

  /** Rotations of `sid` from index `first` on never got past their checks. */
  ghost predicate NoneAdvanced(s: State, sid: nat, first: nat) {
    && first <= |s.rotations|
    && forall r :: first <= r < |s.rotations| && s.rotations[r].sid == sid ==>
         s.rotations[r].stage.Rejected? || (s.rotations[r].stage.Selected? && s.rotations[r].seen.revoked.Some?)
  }

  lemma {:induction false} RevokedStep(s: State, st: Step, sid: nat, first: nat)
    requires IsRevoked(s, sid) && NoneAdvanced(s, sid, first)
    ensures IsRevoked(Next(s, st), sid) && NoneAdvanced(Next(s, st), sid, first)
  {
    if st.Select? {
      LookupFinds(s.sessions, st.tok, Native);
    }
  }

  /**
   Once revoked, a session stays revoked whatever rotations are still in flight, and no rotation that selects it
   afterwards returns tokens.
   */
  lemma {:induction false} RevocationIsFinal(s: State, steps: seq<Step>, sid: nat)
    requires IsRevoked(s, sid)
    ensures IsRevoked(Exec(s, steps), sid) && NoneAdvanced(Exec(s, steps), sid, |s.rotations|)
  {
    if steps != [] {
      RevocationIsFinal(s, steps[..|steps| - 1], sid);
      RevokedStep(Exec(s, steps[..|steps| - 1]), steps[|steps| - 1], sid, |s.rotations|);
    }
  }

  /** Revoking does revoke, for good. */
  lemma {:induction false} RevokeIsForGood(s: State, sid: nat, steps: seq<Step>)
    requires sid < |s.sessions|
    ensures IsRevoked(Exec(Next(s, Revoke(sid)), steps), sid)
  {
    RevocationIsFinal(Next(s, Revoke(sid)), steps, sid);
  }

  // ---------- spacing of rotations that do not overlap ----------

  predicate InFlight(rot: Rotation, sid: nat) {
    rot.sid == sid && (rot.stage.Selected? || rot.stage.Unexpired? || rot.stage.Checked? || rot.stage.Stamped?)
  }

  /** The step does not select `sid` while another rotation of it is in flight. */
  ghost predicate Alone(s: State, st: Step, sid: nat) {
    st.Select? && Lookup(s.sessions, st.tok, Native) == Some(sid) ==>
      forall r :: 0 <= r < |s.rotations| ==> !InFlight(s.rotations[r], sid)
  }

  ghost predicate NonOverlapping(s: State, steps: seq<Step>, sid: nat) {
    steps != [] ==>
      var earlier := steps[..|steps| - 1];
      NonOverlapping(s, earlier, sid) && Alone(Exec(s, earlier), steps[|steps| - 1], sid)
  }

  /** The first renewal a grace window after issue, each next one a grace window after the last. */
  predicate Spaced(row: Session) {
    && (row.renewals != [] ==> row.renewals[0] >= row.created + REFRESH_GRACE_WINDOW)
    && forall i :: 0 <= i < |row.renewals| - 1 ==> row.renewals[i + 1] >= row.renewals[i] + REFRESH_GRACE_WINDOW
  }

  /** A call that has not stamped its token and has passed its checks or can still pass them. */
  predicate Threatens(rot: Rotation, now: nat) {
    rot.stage.Checked? || rot.stage.Unexpired? || (rot.stage.Selected? && IsLive(rot.seen, now))
  }

  /** A rotation of the session that can still update its row. */
  predicate CanCommit(rot: Rotation, sid: nat, now: nat) {
    rot.sid == sid && (rot.stage.Stamped? || Threatens(rot, now))
  }

  /** The earliest moment at which it can. */
  function Earliest(rot: Rotation, now: nat): nat {
    var due := rot.seen.lastSeen + REFRESH_GRACE_WINDOW;
    if (rot.stage.Selected? || rot.stage.Unexpired?) && now < due then due else now
  }

  /** At most one rotation in flight can still update the row, and not within a grace window of its last update. */
  ghost predicate Calm(s: State, sid: nat) {
    sid < |s.sessions| ==>
      && (forall r, q :: 0 <= r < q < |s.rotations| ==>
            !(CanCommit(s.rotations[r], sid, s.now) && CanCommit(s.rotations[q], sid, s.now)))
      && (forall r :: 0 <= r < |s.rotations| && CanCommit(s.rotations[r], sid, s.now) ==>
            Earliest(s.rotations[r], s.now) >= s.sessions[sid].lastSeen + REFRESH_GRACE_WINDOW)
  }

  /** The last moment the row was written as a native session. */
  function LastRenewal(row: Session): nat {
    if row.renewals == [] then row.created else row.renewals[|row.renewals| - 1]
  }

  /** In every run: a native row was last seen at its last renewal, a web row is never renewed. */
  ghost predicate RowInv(s: State, sid: nat) {
    sid < |s.sessions| ==>
      var row := s.sessions[sid];
      && row.lastSeen <= s.now
      && (row.kind == Native ==> row.lastSeen == LastRenewal(row))
      && (row.kind == Web ==> row.renewals == [])
  }

  lemma {:induction false} UpdateKeepsRowInv(s: State, r: nat, ok: bool, sid: nat)
    requires Inv(s) && RowInv(s, sid)
    ensures RowInv(Next(s, Update(r, ok)), sid)
  {
    if ReadyToUpdate(s, r) {
      assert RotationOk(s, s.rotations[r]);
    }
  }

  lemma {:induction false} TouchKeepsRowInv(s: State, tok: nat, ok: bool, sid: nat)
    requires Inv(s) && RowInv(s, sid)
    ensures RowInv(Next(s, Touch(tok, ok)), sid)
  {
  }

  lemma {:induction false} NextKeepsRowInv(s: State, st: Step, sid: nat)
    requires Inv(s) && RowInv(s, sid)
    ensures RowInv(Next(s, st), sid)
  {
    if st.Update? {
      UpdateKeepsRowInv(s, st.r, st.ok, sid);
    } else if st.Touch? {
      TouchKeepsRowInv(s, st.tok, st.ok, sid);
    } else if sid < |s.sessions| {
      var t := Next(s, st);
      assert sid < |t.sessions| && t.sessions[sid].(revoked := s.sessions[sid].revoked) == s.sessions[sid] && s.now <= t.now;
    }
  }

  lemma {:induction false} ExecKeepsRowInv(s: State, steps: seq<Step>, sid: nat)
    requires Inv(s) && RowInv(s, sid)
    ensures RowInv(Exec(s, steps), sid)
  {
    if steps != [] {
      ExecKeepsRowInv(s, steps[..|steps| - 1], sid);
      ExecKeepsInv(s, steps[..|steps| - 1]);
      NextKeepsRowInv(Exec(s, steps[..|steps| - 1]), steps[|steps| - 1], sid);
    }
  }

  ghost predicate SpacedRow(s: State, sid: nat) {
    sid < |s.sessions| ==> Spaced(s.sessions[sid])
  }

  lemma {:induction false} UpdateKeepsCalm(s: State, r: nat, ok: bool, sid: nat)
    requires Inv(s) && RowInv(s, sid) && SpacedRow(s, sid) && Calm(s, sid)
    ensures SpacedRow(Next(s, Update(r, ok)), sid) && Calm(Next(s, Update(r, ok)), sid)
  {
    if ReadyToUpdate(s, r) {
      assert RotationOk(s, s.rotations[r]);
      assert CanCommit(s.rotations[r], s.rotations[r].sid, s.now);
    }
  }

  lemma {:induction false} IssueKeepsCalm(s: State, st: Step, sid: nat)
    requires Inv(s) && RowInv(s, sid) && SpacedRow(s, sid) && Calm(s, sid) && (st.IssueNative? || st.IssueWeb?)
    ensures SpacedRow(Next(s, st), sid) && Calm(Next(s, st), sid)
  {
    assert forall r :: 0 <= r < |s.rotations| ==> RotationOk(s, s.rotations[r]);
  }

  lemma {:induction false} SelectKeepsCalm(s: State, tok: nat, sid: nat)
    requires Inv(s) && RowInv(s, sid) && SpacedRow(s, sid) && Calm(s, sid) && Alone(s, Select(tok), sid)
    ensures SpacedRow(Next(s, Select(tok)), sid) && Calm(Next(s, Select(tok)), sid)
  {
    LookupFinds(s.sessions, tok, Native);
  }

  lemma {:induction false} TouchKeepsCalm(s: State, tok: nat, ok: bool, sid: nat)
    requires Inv(s) && RowInv(s, sid) && SpacedRow(s, sid) && Calm(s, sid)
    ensures SpacedRow(Next(s, Touch(tok, ok)), sid) && Calm(Next(s, Touch(tok, ok)), sid)
  {
    assert forall r :: 0 <= r < |s.rotations| ==> RotationOk(s, s.rotations[r]);
  }

  lemma {:induction false} ChecksKeepCalm(s: State, st: Step, sid: nat)
    requires SpacedRow(s, sid) && Calm(s, sid) && (st.CheckExpiry? || st.CheckGrace? || st.Stamp?)
    ensures SpacedRow(Next(s, st), sid) && Calm(Next(s, st), sid)
  {
  }

  lemma {:induction false} NextKeepsCalm(s: State, st: Step, sid: nat)
    requires Inv(s) && RowInv(s, sid) && SpacedRow(s, sid) && Calm(s, sid) && Alone(s, st, sid)
    ensures SpacedRow(Next(s, st), sid) && Calm(Next(s, st), sid)
  {
    if st.Update? {
      UpdateKeepsCalm(s, st.r, st.ok, sid);
    } else if st.IssueNative? || st.IssueWeb? {
      IssueKeepsCalm(s, st, sid);
    } else if st.Select? {
      SelectKeepsCalm(s, st.tok, sid);
    } else if st.Touch? {
      TouchKeepsCalm(s, st.tok, st.ok, sid);
    } else if st.CheckExpiry? || st.CheckGrace? || st.Stamp? {
      ChecksKeepCalm(s, st, sid);
    }
  }

  lemma {:induction false} ExecKeepsCalm(s: State, steps: seq<Step>, sid: nat)
    requires Inv(s) && RowInv(s, sid) && SpacedRow(s, sid) && Calm(s, sid) && NonOverlapping(s, steps, sid)
    ensures SpacedRow(Exec(s, steps), sid) && Calm(Exec(s, steps), sid)
  {
    if steps != [] {
      var earlier := steps[..|steps| - 1];
      ExecKeepsCalm(s, earlier, sid);
      ExecKeepsInv(s, earlier);
      ExecKeepsRowInv(s, earlier, sid);
      NextKeepsCalm(Exec(s, earlier), steps[|steps| - 1], sid);
    }
  }

  lemma {:induction false} SpacingAddsUp(row: Session, i: nat)
    requires Spaced(row) && i < |row.renewals|
    ensures row.renewals[i] >= row.renewals[0] + i * REFRESH_GRACE_WINDOW
  {
    if i > 0 {
      SpacingAddsUp(row, i - 1);
    }
  }

  /**
   If rotations of a session never overlap, its first renewal comes at least 30 s after issue, and n renewals span
   at least (n - 1) * 30 s.
   */
  lemma {:induction false} RotationsAreSpaced(now: nat, steps: seq<Step>, sid: nat)
    requires NonOverlapping(Start(now), steps, sid)
    requires var s := Exec(Start(now), steps); sid < |s.sessions| && s.sessions[sid].renewals != []
    ensures var row := Exec(Start(now), steps).sessions[sid];
            var n := |row.renewals|;
            && row.renewals[0] >= row.created + 30 * SECOND
            && row.renewals[n - 1] >= row.renewals[0] + (n - 1) * (30 * SECOND)
  {
    ExecKeepsCalm(Start(now), steps, sid);
    var row := Exec(Start(now), steps).sessions[sid];
    SpacingAddsUp(row, |row.renewals| - 1);
  }

  // ---------- access tokens after revocation ----------

  /** Every access token was stamped by `MintJwt` for an existing session, not in the future. */
  ghost predicate MintInv(s: State) {
    forall j :: 0 <= j < |s.minted| ==>
      var t := s.minted[j]; t == MintJwt(t.sid, t.stamped) && t.stamped <= s.now && t.sid < |s.sessions|
  }

  lemma {:induction false} NextKeepsMintInv(s: State, st: Step)
    requires Inv(s) && MintInv(s)
    ensures MintInv(Next(s, st))
  {
    if st.Update? && ReadyToUpdate(s, st.r) {
      assert RotationOk(s, s.rotations[st.r]);
    }
  }

  lemma {:induction false} ExecKeepsMintInv(s: State, steps: seq<Step>)
    requires Inv(s) && MintInv(s)
    ensures MintInv(Exec(s, steps))
  {
    if steps != [] {
      ExecKeepsMintInv(s, steps[..|steps| - 1]);
      ExecKeepsInv(s, steps[..|steps| - 1]);
      NextKeepsMintInv(Exec(s, steps[..|steps| - 1]), steps[|steps| - 1]);
    }
  }

  /** A rotation of `sid` has selected the row, has not stamped its token, and has passed or can still pass its checks. */
  predicate Unstamped(s: State, sid: nat) {
    exists r :: 0 <= r < |s.rotations| && s.rotations[r].sid == sid && Threatens(s.rotations[r], s.now)
  }

  /** An access token of `sid` that expires more than 15 minutes after `at`. */
  predicate Outlives(t: Jwt, sid: nat, at: nat) {
    t.sid == sid && t.exp * SECOND > at + 15 * 60 * SECOND
  }

  /** A token outlives a moment by its full duration exactly when it was stamped in a later second. */
  lemma {:induction false} OutlivesIffStampedLater(sid: nat, stamped: nat, at: nat)
    ensures Outlives(MintJwt(sid, stamped), sid, at) <==> stamped / SECOND * SECOND > at
  {
    assert (stamped + ACCESS_TOKEN_DURATION) / SECOND == stamped / SECOND + 900;
  }

  ghost predicate NoneLater(s: State, sid: nat, at: nat) {
    IsRevoked(s, sid) && at <= s.now && !Unstamped(s, sid) && StampedBy(s, sid, at)
  }

  lemma {:induction false} NoThreatArises(s: State, st: Step, sid: nat)
    requires Inv(s) && IsRevoked(s, sid) && !Unstamped(s, sid)
    ensures !Unstamped(Next(s, st), sid)
  {
    var t := Next(s, st);
    if st.Select? {
      LookupFinds(s.sessions, st.tok, Native);
    }
    forall r | 0 <= r < |t.rotations| && t.rotations[r].sid == sid
      ensures !Threatens(t.rotations[r], t.now)
    {
      if r < |s.rotations| {
        assert !Threatens(s.rotations[r], s.now);
      }
    }
  }

  /** Tokens of `sid` handed out or stamped so far are not from after `at`. */
  ghost predicate StampedBy(s: State, sid: nat, at: nat) {
    && (forall j :: 0 <= j < |s.minted| && s.minted[j].sid == sid ==> s.minted[j].stamped <= at)
    && (forall r :: 0 <= r < |s.rotations| && s.rotations[r].sid == sid && s.rotations[r].stage.Stamped? ==>
          s.rotations[r].stage.at <= at)
  }

  lemma {:induction false} StampedByStep(s: State, st: Step, sid: nat, at: nat)
    requires sid < |s.sessions| && !Unstamped(s, sid) && StampedBy(s, sid, at)
    ensures StampedBy(Next(s, st), sid, at)
  {
    if st.Stamp? && st.r < |s.rotations| && s.rotations[st.r].sid == sid {
      assert !Threatens(s.rotations[st.r], s.now);
    }
  }

  lemma {:induction false} NoneLaterStep(s: State, st: Step, sid: nat, at: nat)
    requires Inv(s) && NoneLater(s, sid, at)
    ensures NoneLater(Next(s, st), sid, at)
  {
    NoThreatArises(s, st, sid);
    StampedByStep(s, st, sid, at);
  }

  lemma {:induction false} NoneLaterRun(s: State, steps: seq<Step>, sid: nat, at: nat)
    requires Inv(s) && NoneLater(s, sid, at)
    ensures NoneLater(Exec(s, steps), sid, at)
  {
    if steps != [] {
      NoneLaterRun(s, steps[..|steps| - 1], sid, at);
      ExecKeepsInv(s, steps[..|steps| - 1]);
      NoneLaterStep(Exec(s, steps[..|steps| - 1]), steps[|steps| - 1], sid, at);
    }
  }

  /** If no rotation is in flight unstamped when a session is revoked, no access token of it ever outlives that moment. */
  lemma {:induction false} AccessEndsAfterRevocation(s: State, sid: nat, steps: seq<Step>, j: nat)
    requires Inv(s) && MintInv(s) && IsRevoked(s, sid) && !Unstamped(s, sid)
    requires j < |Exec(s, steps).minted|
    ensures !Outlives(Exec(s, steps).minted[j], sid, s.now)
  {
    assert forall r :: 0 <= r < |s.rotations| ==> RotationOk(s, s.rotations[r]);
    NoneLaterRun(s, steps, sid, s.now);
    ExecKeepsMintInv(s, steps);
    var t := Exec(s, steps).minted[j];
    if t.sid == sid {
      OutlivesIffStampedLater(sid, t.stamped, s.now);
      assert t.stamped / SECOND * SECOND <= t.stamped;
    }
  }

  /** A token that has never been drawn. */
  lemma {:induction false} FreshToken(used: set<nat>) returns (tok: nat)
    ensures tok !in used
  {
    tok := Above(used);
  }

  lemma {:induction false} Above(used: set<nat>) returns (tok: nat)
    ensures forall x | x in used :: x < tok
    decreases used
  {
    if used == {} {
      tok := 0;
    } else {
      var x :| x in used;
      var t := Above(used - {x});
      tok := if x < t then t else x + 1;
      assert forall y | y in used :: y == x || y in used - {x};
    }
  }

  lemma {:induction false} Then(s0: State, steps: seq<Step>, s: State, st: Step) returns (steps2: seq<Step>, t: State)
    requires Exec(s0, steps) == s
    ensures Exec(s0, steps2) == t == Next(s, st) && steps2 == steps + [st]
  {
    steps2, t := steps + [st], Next(s, st);
    assert steps2[..|steps|] == steps;
  }

  /** If one is in flight unstamped, some continuation does hand out a token that outlives the revocation. */
  lemma {:induction false} UnstampedRotationOutlives(s: State, sid: nat) returns (steps: seq<Step>)
    requires Inv(s) && Unstamped(s, sid)
    ensures var t := Exec(s, steps);
            exists j :: 0 <= j < |t.minted| && Outlives(t.minted[j], sid, s.now)
  {
    var r :| 0 <= r < |s.rotations| && s.rotations[r].sid == sid && Threatens(s.rotations[r], s.now);
    assert RotationOk(s, s.rotations[r]);
    var t;
    steps, t := ReachChecked(s, r);
    steps, t := Then(s, steps, t, Tick(SECOND));
    var tok := FreshToken(t.used);
    var at := t.now;
    steps, t := Then(s, steps, t, Stamp(r, tok));
    steps, t := Then(s, steps, t, Update(r, true));
    OutlivesIffStampedLater(sid, at, s.now);
    assert at / SECOND * SECOND + SECOND > at;
    assert t.minted[|t.minted| - 1] == MintJwt(sid, at);
  }

  /** So the 15-minute bound holds for every continuation if and only if nothing is in flight unstamped at revocation. */
  lemma {:induction false} RevocationBoundsAccessIff(s: State, sid: nat)
    requires Inv(s) && MintInv(s) && IsRevoked(s, sid)
    ensures (forall steps, j :: 0 <= j < |Exec(s, steps).minted| ==> !Outlives(Exec(s, steps).minted[j], sid, s.now))
            <==> !Unstamped(s, sid)
  {
    if Unstamped(s, sid) {
      var steps := UnstampedRotationOutlives(s, sid);
    } else {
      forall steps, j | 0 <= j < |Exec(s, steps).minted|
        ensures !Outlives(Exec(s, steps).minted[j], sid, s.now)
      {
        AccessEndsAfterRevocation(s, sid, steps, j);
      }
    }
  }

  /** Past the first check, at the same moment. */
  lemma {:induction false} ReachUnexpired(s: State, r: nat) returns (steps: seq<Step>, t: State)
    requires r < |s.rotations| && CanCommit(s.rotations[r], s.rotations[r].sid, s.now)
    ensures Exec(s, steps) == t && NoSelects(steps)
    ensures var rot := s.rotations[r];
            t == s.(rotations := s.rotations[r := rot.(stage := if rot.stage.Selected? then Unexpired else rot.stage)])
  {
    steps, t := [], s;
    if s.rotations[r].stage.Selected? {
      steps, t := Then(s, steps, t, CheckExpiry(r));
    }
  }

  /** Past the second check, as early as possible. */
  lemma {:induction false} ReachGrace(s: State, r: nat) returns (steps: seq<Step>, t: State)
    requires r < |s.rotations| && (s.rotations[r].stage.Unexpired? || s.rotations[r].stage.Checked?)
    ensures Exec(s, steps) == t && NoSelects(steps)
    ensures t == s.(now := Earliest(s.rotations[r], s.now), rotations := s.rotations[r := s.rotations[r].(stage := Checked)])
  {
    steps, t := [], s;
    if s.rotations[r].stage.Unexpired? {
      steps, t := Then(s, steps, t, Tick(Earliest(s.rotations[r], s.now) - s.now));
      steps, t := Then(s, steps, t, CheckGrace(r));
    }
  }

  lemma {:induction false} ReachChecked(s: State, r: nat) returns (steps: seq<Step>, t: State)
    requires r < |s.rotations| && Threatens(s.rotations[r], s.now)
    ensures Exec(s, steps) == t && NoSelects(steps) && t.now >= s.now && t.sessions == s.sessions
    ensures r < |t.rotations| && t.rotations[r] == s.rotations[r].(stage := Checked)
  {
    var a, m := ReachUnexpired(s, r);
    var b;
    b, t := ReachGrace(m, r);
    ExecSplit(s, a, b);
    steps := a + b;
  }

  // ---------- overlapping rotations ----------

  /** Two calls that select the same row before either updates it can both succeed, with no grace window between them. */
  lemma {:induction false} OverlappingRotationsBothSucceed(now: nat, user: string) returns (steps: seq<Step>)
    ensures var s := Exec(Start(now), steps);
            && |s.rotations| == 2 && s.rotations[0].stage.Done? && s.rotations[1].stage.Done?
            && |s.sessions| == 1 && |s.sessions[0].renewals| == 2
            && s.sessions[0].renewals[1] == s.sessions[0].renewals[0]
  {
    var s;
    steps, s := TwoSelections(now, user);
    ExecKeepsInv(Start(now), steps);
    var rest := RivalRotationsBreak(s, 0, 0, 1);
    ExecSplit(Start(now), steps, rest);
    steps := steps + rest;
  }

  lemma {:induction false} TwoSelections(now: nat, user: string) returns (steps: seq<Step>, s: State)
    ensures Exec(Start(now), steps) == s
    ensures |s.sessions| == 1 && s.sessions[0].renewals == [] && s.used == {0} && |s.rotations| == 2
    ensures forall r :: 0 <= r < 2 ==>
              && s.rotations[r] == Rotation(0, s.sessions[0], Selected)
              && IsLive(s.rotations[r].seen, s.now) && PastGrace(s.rotations[r].seen, s.now)
  {
    var s0 := Start(now);
    steps, s := [], s0;
    steps, s := Then(s0, steps, s, IssueNative(user, 0, now));
    steps, s := Then(s0, steps, s, Tick(REFRESH_GRACE_WINDOW));
    LookupFinds(s.sessions, 0, Native);
    steps, s := Then(s0, steps, s, Select(0));
    steps, s := Then(s0, steps, s, Select(0));
  }

  // ---------- when spacing is certain ----------

  predicate NoSelects(steps: seq<Step>) {
    forall k :: 0 <= k < |steps| ==> !steps[k].Select?
  }

  lemma {:induction false} NoSelectsNoOverlap(s: State, steps: seq<Step>, sid: nat)
    requires NoSelects(steps)
    ensures NonOverlapping(s, steps, sid)
  {
    if steps != [] {
      NoSelectsNoOverlap(s, steps[..|steps| - 1], sid);
    }
  }

  /** A rotation past its first check stamps its token, as early as possible. */
  lemma {:induction false} ReachStamped(s: State, r: nat) returns (steps: seq<Step>, t: State)
    requires r < |s.rotations|
    requires var stage := s.rotations[r].stage; stage.Unexpired? || stage.Checked? || stage.Stamped?
    ensures Exec(s, steps) == t && NoSelects(steps)
    ensures t.now == Earliest(s.rotations[r], s.now) && t.sessions == s.sessions && |t.rotations| == |s.rotations|
    ensures t.rotations[r] == s.rotations[r].(stage := t.rotations[r].stage) && t.rotations[r].stage.Stamped?
    ensures forall q :: 0 <= q < |s.rotations| && q != r ==> t.rotations[q] == s.rotations[q]
  {
    if s.rotations[r].stage.Stamped? {
      steps, t := [], s;
    } else {
      steps, t := ReachGrace(s, r);
      var tok := FreshToken(t.used);
      steps, t := Then(s, steps, t, Stamp(r, tok));
    }
  }

  lemma {:induction false} UpdateAdds(s: State, r: nat)
    requires ReadyToUpdate(s, r)
    ensures var t := Next(s, Update(r, true));
            && |t.sessions| == |s.sessions| && t.now == s.now && |t.rotations| == |s.rotations|
            && t.sessions[s.rotations[r].sid].renewals == s.sessions[s.rotations[r].sid].renewals + [s.now]
            && t.sessions[s.rotations[r].sid].created == s.sessions[s.rotations[r].sid].created
            && t.rotations == s.rotations[r := t.rotations[r]] && t.rotations[r].stage.Done?
  {
  }

  /** A renewal within a grace window of the one before, or of the issue, is not spaced. */
  lemma {:induction false} TooSoon(row: Session, before: Session, at: nat)
    requires row.renewals == before.renewals + [at] && row.created == before.created
    requires at < LastRenewal(before) + REFRESH_GRACE_WINDOW
    ensures !Spaced(row)
  {
    if before.renewals != [] {
      var i := |before.renewals| - 1;
      assert row.renewals[i] == before.renewals[i] && row.renewals[i + 1] == at;
    }
  }

  /** A rotation that can update the row too soon does so. */
  lemma {:induction false} HastyRotationBreaks(s: State, sid: nat, r: nat) returns (steps: seq<Step>)
    requires Inv(s) && RowInv(s, sid) && sid < |s.sessions| && r < |s.rotations| && CanCommit(s.rotations[r], sid, s.now)
    requires Earliest(s.rotations[r], s.now) < s.sessions[sid].lastSeen + REFRESH_GRACE_WINDOW
    ensures NoSelects(steps) && sid < |Exec(s, steps).sessions| && !Spaced(Exec(s, steps).sessions[sid])
  {
    assert RotationOk(s, s.rotations[r]);
    var a, m := ReachUnexpired(s, r);
    var b, t := ReachStamped(m, r);
    ExecSplit(s, a, b);
    var u;
    steps, u := Then(s, a + b, t, Update(r, true));
    UpdateAdds(t, r);
    TooSoon(u.sessions[sid], s.sessions[sid], t.now);
  }

  /** Both rotations succeed, one right after the other. */
  ghost predicate BothRenewed(s: State, t: State, sid: nat, r: nat, q: nat)
    requires sid < |s.sessions|
  {
    && |t.sessions| == |s.sessions| && |t.rotations| == |s.rotations| && r < q < |t.rotations|
    && t.rotations[r].stage.Done? && t.rotations[q].stage.Done?
    && exists at :: t.sessions[sid].renewals == s.sessions[sid].renewals + [at, at]
  }

  /** Two rotations that can both update the row can do so at the same moment. */
  lemma {:induction false} RivalRotationsBreak(s: State, sid: nat, r: nat, q: nat) returns (steps: seq<Step>)
    requires Inv(s) && sid < |s.sessions| && r < q < |s.rotations|
    requires CanCommit(s.rotations[r], sid, s.now) && CanCommit(s.rotations[q], sid, s.now)
    ensures NoSelects(steps) && BothRenewed(s, Exec(s, steps), sid, r, q) && !Spaced(Exec(s, steps).sessions[sid])
  {
    var a, s1 := ReachUnexpired(s, r);
    var b, s2 := ReachUnexpired(s1, q);
    ExecSplit(s, a, b);
    var c, s3 := ReachStamped(s2, r);
    ExecSplit(s, a + b, c);
    var d, s4 := ReachStamped(s3, q);
    ExecSplit(s, a + b + c, d);
    steps := BothUpdate(s4, sid, r, q);
    ExecSplit(s, a + b + c + d, steps);
    steps := a + b + c + d + steps;
  }

  lemma {:induction false} BothUpdate(s: State, sid: nat, r: nat, q: nat) returns (steps: seq<Step>)
    requires sid < |s.sessions| && r < q < |s.rotations|
    requires s.rotations[r].sid == s.rotations[q].sid == sid && s.rotations[r].stage.Stamped? && s.rotations[q].stage.Stamped?
    ensures NoSelects(steps) && BothRenewed(s, Exec(s, steps), sid, r, q) && !Spaced(Exec(s, steps).sessions[sid])
  {
    UpdateAdds(s, r);
    var t, u;
    steps, t := Then(s, [], s, Update(r, true));
    UpdateAdds(t, q);
    steps, u := Then(s, steps, t, Update(q, true));
    TooSoon(u.sessions[sid], t.sessions[sid], t.now);
    assert u.sessions[sid].renewals == s.sessions[sid].renewals + [s.now, s.now];
  }

  /** However the run goes on without further overlapping rotations of the session, its renewals stay spaced. */
  ghost predicate StaysSpaced(s: State, sid: nat) {
    forall steps :: NonOverlapping(s, steps, sid) ==> SpacedRow(Exec(s, steps), sid)
  }

  /**
   After any run, overlapping rotations included, the renewals of a session are certain to stay 30 s apart if and
   only if they are so far, at most one rotation in flight can still update the row, and that one not within 30 s
   of the last update.
   */
  lemma {:induction false} StaysSpacedIff(now: nat, steps: seq<Step>, sid: nat)
    ensures var s := Exec(Start(now), steps);
            StaysSpaced(s, sid) <==> SpacedRow(s, sid) && Calm(s, sid)
  {
    var s := Exec(Start(now), steps);
    ExecKeepsInv(Start(now), steps);
    ExecKeepsRowInv(Start(now), steps, sid);
    if SpacedRow(s, sid) && Calm(s, sid) {
      forall more | NonOverlapping(s, more, sid)
        ensures SpacedRow(Exec(s, more), sid)
      {
        ExecKeepsCalm(s, more, sid);
      }
    } else {
      var more := UncalmBreaks(s, sid);
      NoSelectsNoOverlap(s, more, sid);
    }
  }

  lemma {:induction false} UncalmBreaks(s: State, sid: nat) returns (steps: seq<Step>)
    requires Inv(s) && RowInv(s, sid) && !(SpacedRow(s, sid) && Calm(s, sid))
    ensures NoSelects(steps) && !SpacedRow(Exec(s, steps), sid)
  {
    if !SpacedRow(s, sid) {
      steps := [];
    } else if r, q :| 0 <= r < q < |s.rotations| && CanCommit(s.rotations[r], sid, s.now)
                      && CanCommit(s.rotations[q], sid, s.now) {
      steps := RivalRotationsBreak(s, sid, r, q);
    } else {
      var r :| 0 <= r < |s.rotations| && CanCommit(s.rotations[r], sid, s.now)
               && Earliest(s.rotations[r], s.now) < s.sessions[sid].lastSeen + REFRESH_GRACE_WINDOW;
      steps := HastyRotationBreaks(s, sid, r);
    }
  }
}
