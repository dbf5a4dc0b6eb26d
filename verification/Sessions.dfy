/**
 Refresh-token rotation, web sessions and revocation as interleaved statements on the sessions table.
 Times are nanoseconds of one clock; tokens are drawn fresh.
 */
module Sessions {
  import opened Common

  const SECOND: nat := 1_000_000_000
  const ACCESS_TOKEN_DURATION: nat := 15 * 60 * SECOND
  const REFRESH_TOKEN_DURATION: nat := 30 * 24 * 3600 * SECOND
  const WEB_SESSION_DURATION: nat := 7 * 24 * 3600 * SECOND
  const REFRESH_GRACE_WINDOW: nat := 30 * SECOND

  /** SHA-256 of a raw token; taken to be collision-free. */
  datatype Digest = Sha256(raw: nat)

  datatype Kind = Native | Web

  /** A row; `renewals`, the times of the rotations that updated it, is history. */
  datatype Session = Session(
    user: string, kind: Kind, hash: Digest, created: nat, lastSeen: nat, expires: nat, revoked: Option<nat>,
    renewals: seq<nat>)

  /** Where a RotateRefreshToken call stands. */
  datatype Stage = Selected | Unexpired | Checked | Stamped(tok: nat, at: nat) | Done(granted: nat) | Rejected

  /** `seen` is the row as the call's SELECT returned it. */
  datatype Rotation = Rotation(sid: nat, seen: Session, stage: Stage)

  /** An access token; `exp` is in whole seconds. */
  datatype Jwt = Jwt(sid: nat, stamped: nat, exp: nat)

  /** `touching` has the web tokens of validated calls whose UPDATE of last_seen_at is still to come. */
  datatype State = State(
    now: nat, sessions: seq<Session>, rotations: seq<Rotation>, used: set<nat>, minted: seq<Jwt>, touching: multiset<nat>)

  datatype Step =
    | Tick(d: nat)
    | IssueNative(user: string, tok: nat, at: nat)
    | IssueWeb(user: string, tok: nat, at: nat)
    | Select(tok: nat)
    | CheckExpiry(r: nat)
    | CheckGrace(r: nat)
    | Stamp(r: nat, tok: nat)
    | Update(r: nat, ok: bool)
    | Revoke(sid: nat)
    | ValidateWeb(tok: nat)
    | Touch(tok: nat, ok: bool)

  function MintJwt(sid: nat, at: nat): Jwt {
    Jwt(sid, at, (at + ACCESS_TOKEN_DURATION) / SECOND)
  }

  /** The row with this refresh hash and kind, if any. */
  function Lookup(sessions: seq<Session>, tok: nat, kind: Kind): Option<nat> {
    if sessions == [] then None
    else
      var n := |sessions| - 1;
      if sessions[n].hash == Sha256(tok) && sessions[n].kind == kind then Some(n) else Lookup(sessions[..n], tok, kind)
  }

  /** The first check, on the row as it was selected: neither revoked nor expired. */
  predicate IsLive(seen: Session, now: nat) {
    seen.revoked.None? && now <= seen.expires
  }

  /** The second check, which reads the clock again: not within the grace window. */
  predicate PastGrace(seen: Session, now: nat) {
    now >= seen.lastSeen + REFRESH_GRACE_WINDOW
  }

  function TouchAll(sessions: seq<Session>, tok: nat, now: nat): seq<Session> {
    seq(|sessions|, i requires 0 <= i < |sessions| =>
      if sessions[i].hash == Sha256(tok) then sessions[i].(lastSeen := now) else sessions[i])
  }

  /** An impossible step changes nothing. */
  function Next(s: State, st: Step): State {
    match st
    case Tick(d) => s.(now := s.now + d)
    case IssueNative(user, tok, at) =>
      if tok !in s.used && at <= s.now then
        var row := Session(user, Native, Sha256(tok), s.now, s.now, at + REFRESH_TOKEN_DURATION, None, []);
        s.(sessions := s.sessions + [row], used := s.used + {tok}, minted := s.minted + [MintJwt(|s.sessions|, at)])
      else s
    case IssueWeb(user, tok, at) =>
      if tok !in s.used && at <= s.now then
        var row := Session(user, Web, Sha256(tok), s.now, s.now, at + WEB_SESSION_DURATION, None, []);
        s.(sessions := s.sessions + [row], used := s.used + {tok})
      else s
    case Select(tok) =>
      (match Lookup(s.sessions, tok, Native)
       case None => s
       case Some(sid) =>
         if sid < |s.sessions| then s.(rotations := s.rotations + [Rotation(sid, s.sessions[sid], Selected)]) else s)
    case CheckExpiry(r) =>
      if r < |s.rotations| && s.rotations[r].stage.Selected? then
        var stage := if IsLive(s.rotations[r].seen, s.now) then Unexpired else Rejected;
        s.(rotations := s.rotations[r := s.rotations[r].(stage := stage)])
      else s
    case CheckGrace(r) =>
      if r < |s.rotations| && s.rotations[r].stage.Unexpired? then
        var stage := if PastGrace(s.rotations[r].seen, s.now) then Checked else Rejected;
        s.(rotations := s.rotations[r := s.rotations[r].(stage := stage)])
      else s
    case Stamp(r, tok) =>
      if r < |s.rotations| && s.rotations[r].stage.Checked? && tok !in s.used then
        s.(rotations := s.rotations[r := s.rotations[r].(stage := Stamped(tok, s.now))], used := s.used + {tok})
      else s
    case Update(r, ok) =>
      if r < |s.rotations| && s.rotations[r].stage.Stamped? && s.rotations[r].sid < |s.sessions| then
        var rot := s.rotations[r];
        if ok then
          var row := s.sessions[rot.sid];
          s.(sessions := s.sessions[rot.sid := row.(hash := Sha256(rot.stage.tok), lastSeen := s.now,
                                                    expires := rot.stage.at + REFRESH_TOKEN_DURATION,
                                                    renewals := row.renewals + [s.now])],
             rotations := s.rotations[r := rot.(stage := Done(rot.stage.tok))],
             minted := s.minted + [MintJwt(rot.sid, rot.stage.at)])
        else s.(rotations := s.rotations[r := rot.(stage := Rejected)])
      else s
    case Revoke(sid) =>
      if sid < |s.sessions| then
        s.(sessions := s.sessions[sid := s.sessions[sid].(revoked := Some(s.now))])
      else s
    case ValidateWeb(tok) =>
      (match Lookup(s.sessions, tok, Web)
       case None => s
       case Some(sid) =>
         if sid < |s.sessions| && IsLive(s.sessions[sid], s.now) then
           s.(touching := s.touching + multiset{tok})
         else s)
    case Touch(tok, ok) =>
      if tok in s.touching then
        s.(touching := s.touching - multiset{tok}, sessions := if ok then TouchAll(s.sessions, tok, s.now) else s.sessions)
      else s
  }

  function Exec(s: State, steps: seq<Step>): State {
    if steps == [] then s else Next(Exec(s, steps[..|steps| - 1]), steps[|steps| - 1])
  }

  function Start(now: nat): State {
    State(now, [], [], {}, [], multiset{})
  }

  lemma {:induction false} ExecSplit(s: State, a: seq<Step>, b: seq<Step>)
    ensures Exec(s, a + b) == Exec(Exec(s, a), b)
  {
    if b == [] {
      assert a + b == a;
    } else {
      var n := |b| - 1;
      ExecSplit(s, a, b[..n]);
      assert (a + b)[..|a + b| - 1] == a + b[..n];
    }
  }

  lemma {:induction false} LookupFinds(sessions: seq<Session>, tok: nat, kind: Kind)
    ensures var f := Lookup(sessions, tok, kind);
            match f
            case Some(i) => i < |sessions| && sessions[i].hash == Sha256(tok) && sessions[i].kind == kind
            case None => forall i :: 0 <= i < |sessions| ==> !(sessions[i].hash == Sha256(tok) && sessions[i].kind == kind)
  {
    if sessions != [] {
      LookupFinds(sessions[..|sessions| - 1], tok, kind);
    }
  }

  // ---------- what every run keeps ----------

  /**
   Hashes are unique and known; a stamped token is not yet in the table, and no two rotations hold the same one;
   rotations are of native sessions, touches of web sessions.
   */
  ghost predicate Inv(s: State) {
    && (forall i, j :: 0 <= i < j < |s.sessions| ==> s.sessions[i].hash != s.sessions[j].hash)
    && (forall i :: 0 <= i < |s.sessions| ==> s.sessions[i].hash.raw in s.used)
    && (forall r :: 0 <= r < |s.rotations| ==> RotationOk(s, s.rotations[r]))
    && (forall r, q :: 0 <= r < q < |s.rotations| && s.rotations[r].stage.Stamped? && s.rotations[q].stage.Stamped? ==>
          s.rotations[r].stage.tok != s.rotations[q].stage.tok)
    && (forall i :: 0 <= i < |s.sessions| && s.sessions[i].hash.raw in s.touching ==> s.sessions[i].kind == Web)
    && (forall tok | tok in s.touching :: tok in s.used)
  }

  ghost predicate RotationOk(s: State, rot: Rotation) {
    && rot.sid < |s.sessions| && s.sessions[rot.sid].kind == Native
    && (rot.stage.Stamped? ==>
          && rot.stage.tok in s.used && rot.stage.tok !in s.touching && rot.stage.at <= s.now
          && forall i :: 0 <= i < |s.sessions| ==> s.sessions[i].hash != Sha256(rot.stage.tok))
  }

  lemma {:induction false} IssueKeepsInv(s: State, st: Step)
    requires Inv(s) && (st.IssueNative? || st.IssueWeb?)
    ensures Inv(Next(s, st))
  {
    assert forall r :: 0 <= r < |s.rotations| ==> RotationOk(s, s.rotations[r]);
  }

  lemma {:induction false} SelectKeepsInv(s: State, tok: nat)
    requires Inv(s)
    ensures Inv(Next(s, Select(tok)))
  {
    LookupFinds(s.sessions, tok, Native);
    assert forall r :: 0 <= r < |s.rotations| ==> RotationOk(s, s.rotations[r]);
  }

  lemma {:induction false} ChecksKeepInv(s: State, st: Step)
    requires Inv(s) && (st.CheckExpiry? || st.CheckGrace?)
    ensures Inv(Next(s, st))
  {
    assert forall r :: 0 <= r < |s.rotations| ==> RotationOk(s, s.rotations[r]);
  }

  lemma {:induction false} StampKeepsInv(s: State, r: nat, tok: nat)
    requires Inv(s)
    ensures Inv(Next(s, Stamp(r, tok)))
  {
    assert forall q :: 0 <= q < |s.rotations| ==> RotationOk(s, s.rotations[q]);
  }

  lemma {:induction false} UpdateKeepsInv(s: State, r: nat, ok: bool)
    requires Inv(s)
    ensures Inv(Next(s, Update(r, ok)))
  {
    assert forall q :: 0 <= q < |s.rotations| ==> RotationOk(s, s.rotations[q]);
  }

  lemma {:induction false} ValidateKeepsInv(s: State, tok: nat)
    requires Inv(s)
    ensures Inv(Next(s, ValidateWeb(tok)))
  {
    LookupFinds(s.sessions, tok, Web);
    var t := Next(s, ValidateWeb(tok));
    if t != s {
      assert t == s.(touching := s.touching + multiset{tok});
      assert forall x :: x in t.touching ==> x in s.touching || x == tok;
      forall q | 0 <= q < |s.rotations|
        ensures RotationOk(t, t.rotations[q])
      {
        assert RotationOk(s, s.rotations[q]);
      }
    }
  }

  lemma {:induction false} TouchKeepsInv(s: State, tok: nat, ok: bool)
    requires Inv(s)
    ensures Inv(Next(s, Touch(tok, ok)))
  {
    var t := Next(s, Touch(tok, ok));
    assert forall x :: x in t.touching ==> x in s.touching;
    assert |t.sessions| == |s.sessions|;
    assert forall i :: 0 <= i < |s.sessions| ==>
        t.sessions[i].hash == s.sessions[i].hash && t.sessions[i].kind == s.sessions[i].kind;
    forall q | 0 <= q < |s.rotations|
      ensures RotationOk(t, t.rotations[q])
    {
      assert RotationOk(s, s.rotations[q]);
    }
  }

  lemma {:induction false} NextKeepsInv(s: State, st: Step)
    requires Inv(s)
    ensures Inv(Next(s, st))
  {
    if st.IssueNative? || st.IssueWeb? {
      IssueKeepsInv(s, st);
    } else if st.Select? {
      SelectKeepsInv(s, st.tok);
    } else if st.CheckExpiry? || st.CheckGrace? {
      ChecksKeepInv(s, st);
    } else if st.Stamp? {
      StampKeepsInv(s, st.r, st.tok);
    } else if st.Update? {
      UpdateKeepsInv(s, st.r, st.ok);
    } else if st.ValidateWeb? {
      ValidateKeepsInv(s, st.tok);
    } else if st.Touch? {
      TouchKeepsInv(s, st.tok, st.ok);
    } else {
      assert forall q :: 0 <= q < |s.rotations| ==> RotationOk(s, s.rotations[q]);
    }
  }

  lemma {:induction false} ExecKeepsInv(s: State, steps: seq<Step>)
    requires Inv(s)
    ensures Inv(Exec(s, steps))
  {
    if steps != [] {
      ExecKeepsInv(s, steps[..|steps| - 1]);
      NextKeepsInv(Exec(s, steps[..|steps| - 1]), steps[|steps| - 1]);
    }
  }
}
