/**
 The session functions as code over a mutable table. Run without interruption, each does what its statements do in
 Sessions; the delays between statements are parameters.
 */
module SessionTable {
  import opened Common
  import opened Sessions

  datatype TokenPair = TokenPair(access: Jwt, refresh: nat)

  class SessionTable {
    var now: nat
    var sessions: seq<Session>
    ghost var rotations: seq<Rotation>
    ghost var used: set<nat>
    ghost var minted: seq<Jwt>
    ghost var touching: multiset<nat>

    constructor (now: nat)
      ensures View() == Start(now)
    {
      this.now := now;
      sessions, rotations, used, minted, touching := [], [], {}, [], multiset{};
    }

    ghost function View(): State
      reads this
    {
      State(now, sessions, rotations, used, minted, touching)
    }

    method Wait(d: nat)
      modifies this`now
      ensures View() == Next(old(View()), Tick(d))
    {
      now := now + d;
    }

    /** A new session and its tokens, or nothing if the INSERT fails. */
    method IssueNativeSession(user: string, tok: nat, delay: nat, ok: bool) returns (pair: Option<TokenPair>)
      requires tok !in used
      modifies this
      ensures pair.Some? <==> ok
      ensures ok ==> View() == Next(Next(old(View()), Tick(delay)), IssueNative(user, tok, old(now)))
      ensures !ok ==> View() == Next(old(View()), Tick(delay))
      ensures ok ==> && pair.value.refresh == tok && Lookup(sessions, tok, Native) == Some(|sessions| - 1)
                     && |minted| > 0 && pair.value.access == minted[|minted| - 1]
                     && sessions == old(sessions) + [Session(user, Native, Sha256(tok), now, now,
                                                            old(now) + 30 * 24 * 3600 * 1_000_000_000, None, [])]
                     && pair.value.access == Jwt(|old(sessions)|, old(now), (old(now) + 900 * 1_000_000_000) / 1_000_000_000)
    {
      var stamp := now;
      Wait(delay);
      var access := MintJwt(|sessions|, stamp);
      if !ok {
        return None;
      }
      sessions := sessions + [Session(user, Native, Sha256(tok), now, now, stamp + REFRESH_TOKEN_DURATION, None, [])];
      used, minted := used + {tok}, minted + [access];
      pair := Some(TokenPair(access, tok));
    }

    method RevokeSession(sid: nat)
      modifies this`sessions
      ensures View() == Next(old(View()), Revoke(sid))
      ensures |sessions| == |old(sessions)|
      ensures forall i :: 0 <= i < |sessions| ==>
                sessions[i] == if i == sid then old(sessions)[i].(revoked := Some(now)) else old(sessions)[i]
    {
      if sid < |sessions| {
        sessions := sessions[sid := sessions[sid].(revoked := Some(now))];
      }
    }

    /** Answers the owner of a live web session and marks the session as seen, if that UPDATE does not fail. */
    method ValidateWebSession(tok: nat, touchOk: bool) returns (user: Option<string>)
      modifies this
      ensures |sessions| == |old(sessions)| && forall i :: 0 <= i < |sessions| ==>
                sessions[i] == if user.Some? && touchOk && old(sessions)[i].hash == Sha256(tok)
                               then old(sessions)[i].(lastSeen := now) else old(sessions)[i]
      ensures user.Some? ==> View() == Next(Next(old(View()), ValidateWeb(tok)), Touch(tok, touchOk))
      ensures user.None? ==> View() == old(View())
      ensures user == match Lookup(old(sessions), tok, Web)
                      case None => None
                      case Some(sid) =>
                        if sid < |old(sessions)| && old(sessions)[sid].revoked == None && now <= old(sessions)[sid].expires
                        then Some(old(sessions)[sid].user) else None
    {
      LookupFinds(sessions, tok, Web);
      var found := Lookup(sessions, tok, Web);
      if found.None? {
        return None;
      }
      var row := sessions[found.value];
      if row.revoked.Some? {
        return None;
      }
      if now > row.expires {
        return None;
      }
      touching := touching + multiset{tok};
      assert View() == Next(old(View()), ValidateWeb(tok));
      MarkSeen(tok, touchOk);
      return Some(row.user);
    }

    /** The UPDATE of last_seen_at. */
    method MarkSeen(tok: nat, ok: bool)
      requires tok in touching
      modifies this`sessions, this`touching
      ensures View() == Next(old(View()), Touch(tok, ok))
      ensures |sessions| == |old(sessions)| && forall i :: 0 <= i < |sessions| ==>
                sessions[i] == if ok && old(sessions)[i].hash == Sha256(tok)
                               then old(sessions)[i].(lastSeen := now) else old(sessions)[i]
    {
      if ok {
        sessions := TouchAll(sessions, tok, now);
      }
      touching := touching - multiset{tok};
    }

    /** The two checks, each with its own look at the clock. */
    static function CheckSteps(r: nat, d0: nat, d1: nat): seq<Step> {
      [Tick(d0), CheckExpiry(r), Tick(d1), CheckGrace(r)]
    }

    /** The statements behind the checks. */
    static function RenewSteps(r: nat, newTok: nat, d2: nat, d3: nat, ok: bool): seq<Step> {
      [Tick(d2), Stamp(r, newTok), Tick(d3), Update(r, ok)]
    }

    /** The statements of one rotation in a row: SELECT, the two checks, stamping, UPDATE, with the time before each. */
    static function RotateSteps(tok: nat, r: nat, newTok: nat, d0: nat, d1: nat, d2: nat, d3: nat, ok: bool): seq<Step> {
      [Select(tok)] + CheckSteps(r, d0, d1) + RenewSteps(r, newTok, d2, d3, ok)
    }

    method PassChecks(row: Session, d0: nat, d1: nat, ghost r: nat) returns (passed: bool, ghost steps: seq<Step>)
      requires r < |rotations| && rotations[r].seen == row && rotations[r].stage.Selected?
      modifies this`now, this`rotations
      ensures View() == Exec(old(View()), steps) && steps <= CheckSteps(r, d0, d1)
      ensures passed ==> steps == CheckSteps(r, d0, d1)
      ensures passed <==> && row.revoked == None && old(now) + d0 <= row.expires
                          && old(now) + d0 + d1 >= row.lastSeen + 30 * 1_000_000_000
      ensures |rotations| == |old(rotations)|
      ensures rotations[r] == old(rotations)[r].(stage := if passed then Checked else Rejected)
      ensures passed ==> now == old(now) + d0 + d1
    {
      steps := CheckSteps(r, d0, d1)[..2];
      TwoSteps(View(), Tick(d0), CheckExpiry(r));
      passed := IsUnexpired(row, d0, r);
      if !passed {
        return;
      }
      TwoSteps(View(), Tick(d1), CheckGrace(r));
      ExecSplit(old(View()), steps, [Tick(d1), CheckGrace(r)]);
      steps := steps + [Tick(d1), CheckGrace(r)];
      passed := IsPastGrace(row, d1, r);
    }

    method IsUnexpired(row: Session, d0: nat, ghost r: nat) returns (passed: bool)
      requires r < |rotations| && rotations[r].seen == row && rotations[r].stage.Selected?
      modifies this`now, this`rotations
      ensures View() == Next(Next(old(View()), Tick(d0)), CheckExpiry(r)) && now == old(now) + d0
      ensures passed <==> row.revoked == None && now <= row.expires
      ensures rotations == old(rotations)[r := old(rotations)[r].(stage := if passed then Unexpired else Rejected)]
    {
      Wait(d0);
      passed := !(row.revoked.Some? || now > row.expires);
      rotations := rotations[r := rotations[r].(stage := if passed then Unexpired else Rejected)];
    }

    method IsPastGrace(row: Session, d1: nat, ghost r: nat) returns (passed: bool)
      requires r < |rotations| && rotations[r].seen == row && rotations[r].stage.Unexpired?
      modifies this`now, this`rotations
      ensures View() == Next(Next(old(View()), Tick(d1)), CheckGrace(r)) && now == old(now) + d1
      ensures passed <==> now >= row.lastSeen + 30 * 1_000_000_000
      ensures rotations == old(rotations)[r := old(rotations)[r].(stage := if passed then Checked else Rejected)]
    {
      Wait(d1);
      passed := !(now - row.lastSeen < REFRESH_GRACE_WINDOW);
      rotations := rotations[r := rotations[r].(stage := if passed then Checked else Rejected)];
    }

    static lemma {:induction false} OneStep(s: State, a: Step)
      ensures Exec(s, [a]) == Next(s, a)
    {
      assert [a][..0] == [];
    }

    static lemma {:induction false} TwoSteps(s: State, a: Step, b: Step)
      ensures Exec(s, [a, b]) == Next(Next(s, a), b)
    {
      OneStep(s, a);
      assert [a, b][..1] == [a];
    }

    static lemma {:induction false} PrefixCons(x: Step, a: seq<Step>, b: seq<Step>, rest: seq<Step>)
      requires rest <= a + b
      ensures [x] + rest <= [x] + a + b
    {
      assert [x] + a + b == [x] + (a + b);
    }

    /** With a pair, the row has the new token, is seen now and lives for another 30 days; without one, nothing changed. */
    static ghost predicate Renewed(
      before: seq<Session>, after: seq<Session>, sid: nat, newTok: nat, stamp: nat, now: nat, pair: Option<TokenPair>)
    {
      match pair
      case None => after == before
      case Some(p) =>
        && sid < |before| && p.refresh == newTok
        && p.access == Jwt(sid, stamp, (stamp + 900 * 1_000_000_000) / 1_000_000_000)
        && after == before[sid := before[sid].(hash := Sha256(newTok), lastSeen := now,
                                               expires := stamp + 30 * 24 * 3600 * 1_000_000_000,
                                               renewals := before[sid].renewals + [now])]
    }

    /**
     What a rotation that began at `start` answers, and leaves: a pair exactly if there is a row, it is not revoked, has
     not expired at the first check and was not seen within 30 seconds before the second, and the UPDATE goes through.
     */
    static ghost predicate Rotated(
      before: seq<Session>, after: seq<Session>, found: Option<nat>, newTok: nat,
      start: nat, d0: nat, d1: nat, d2: nat, now: nat, ok: bool, pair: Option<TokenPair>)
    {
      match found
      case None => pair == None && after == before
      case Some(sid) =>
        && sid < |before|
        && (pair.Some? <==> && ok && before[sid].revoked == None && start + d0 <= before[sid].expires
                            && start + d0 + d1 >= before[sid].lastSeen + 30 * 1_000_000_000)
        && Renewed(before, after, sid, newTok, start + d0 + d1 + d2, now, pair)
    }

    /** Stamps and stores the new tokens. */
    method Renew(sid: nat, newTok: nat, d2: nat, d3: nat, ok: bool, ghost r: nat) returns (pair: Option<TokenPair>)
      requires newTok !in used && sid < |sessions|
      requires r < |rotations| && rotations[r].sid == sid && rotations[r].stage.Checked?
      modifies this
      ensures View() == Exec(old(View()), RenewSteps(r, newTok, d2, d3, ok))
      ensures |rotations| == |old(rotations)| && (pair.Some? <==> rotations[r].stage == Done(newTok))
      ensures (pair.Some? <==> ok) && now == old(now) + d2 + d3
      ensures Renewed(old(sessions), sessions, sid, newTok, old(now) + d2, now, pair)
      ensures pair.Some? ==> minted == old(minted) + [pair.value.access]
    {
      ExecSplit(View(), [Tick(d2), Stamp(r, newTok)], [Tick(d3), Update(r, ok)]);
      assert RenewSteps(r, newTok, d2, d3, ok) == [Tick(d2), Stamp(r, newTok)] + [Tick(d3), Update(r, ok)];
      WaitAndStamp(newTok, d2, r);
      var stamp := now;
      var access := MintJwt(sid, stamp);
      WaitAndStore(sid, newTok, stamp, access, d3, ok, r);
      pair := if ok then Some(TokenPair(access, newTok)) else None;
    }

    method WaitAndStamp(newTok: nat, d2: nat, ghost r: nat)
      requires newTok !in used && r < |rotations| && rotations[r].stage.Checked?
      modifies this`now, this`used, this`rotations
      ensures View() == Exec(old(View()), [Tick(d2), Stamp(r, newTok)]) && now == old(now) + d2
      ensures |rotations| == |old(rotations)| && rotations[r] == old(rotations)[r].(stage := Stamped(newTok, now))
    {
      TwoSteps(View(), Tick(d2), Stamp(r, newTok));
      Wait(d2);
      StampRotation(newTok, r);
    }

    method WaitAndStore(
      sid: nat, newTok: nat, stamp: nat, ghost access: Jwt, d3: nat, ok: bool, ghost r: nat)
      requires sid < |sessions| && access == MintJwt(sid, stamp)
      requires r < |rotations| && rotations[r].sid == sid && rotations[r].stage == Stamped(newTok, stamp)
      modifies this`now, this`sessions, this`rotations, this`minted
      ensures View() == Exec(old(View()), [Tick(d3), Update(r, ok)]) && now == old(now) + d3
      ensures |rotations| == |old(rotations)| && (ok <==> rotations[r].stage == Done(newTok))
      ensures minted == old(minted) + if ok then [access] else []
      ensures Renewed(old(sessions), sessions, sid, newTok, stamp, now, if ok then Some(TokenPair(access, newTok)) else None)
    {
      TwoSteps(View(), Tick(d3), Update(r, ok));
      Wait(d3);
      Store(sid, newTok, stamp, access, ok, r);
    }

    ghost method StampRotation(newTok: nat, r: nat)
      requires newTok !in used && r < |rotations| && rotations[r].stage.Checked?
      modifies this`used, this`rotations
      ensures View() == Next(old(View()), Stamp(r, newTok))
      ensures |rotations| == |old(rotations)| && rotations[r] == old(rotations)[r].(stage := Stamped(newTok, now))
    {
      used, rotations := used + {newTok}, rotations[r := rotations[r].(stage := Stamped(newTok, now))];
    }

    /** The UPDATE. */
    method Store(sid: nat, newTok: nat, stamp: nat, ghost access: Jwt, ok: bool, ghost r: nat)
      requires sid < |sessions| && access == MintJwt(sid, stamp)
      requires r < |rotations| && rotations[r].sid == sid && rotations[r].stage == Stamped(newTok, stamp)
      modifies this`sessions, this`rotations, this`minted
      ensures View() == Next(old(View()), Update(r, ok))
      ensures |rotations| == |old(rotations)| && (ok <==> rotations[r].stage == Done(newTok))
      ensures minted == old(minted) + if ok then [access] else []
      ensures Renewed(old(sessions), sessions, sid, newTok, stamp, now, if ok then Some(TokenPair(access, newTok)) else None)
    {
      if ok {
        var row := sessions[sid];
        sessions := sessions[sid := row.(hash := Sha256(newTok), lastSeen := now,
                                         expires := stamp + REFRESH_TOKEN_DURATION, renewals := row.renewals + [now])];
        minted := minted + [access];
      }
      rotations := rotations[r := rotations[r].(stage := if ok then Done(newTok) else Rejected)];
    }

    /**
     A pair is returned exactly when the token is found, its row is not revoked, has not expired at the first check
     and was not seen within 30 seconds before the second one, and the UPDATE goes through.
     */
    method RotateRefreshToken(tok: nat, newTok: nat, d0: nat, d1: nat, d2: nat, d3: nat, ok: bool)
      returns (pair: Option<TokenPair>, ghost steps: seq<Step>)
      requires newTok !in used
      modifies this
      ensures View() == Exec(old(View()), steps)
      ensures steps <= RotateSteps(tok, |old(rotations)|, newTok, d0, d1, d2, d3, ok)
      ensures pair.Some? <==> |rotations| > |old(rotations)| && rotations[|old(rotations)|].stage == Done(newTok)
      ensures pair.Some? ==> minted == old(minted) + [pair.value.access]
      ensures Rotated(old(sessions), sessions, Lookup(old(sessions), tok, Native), newTok, old(now), d0, d1, d2, now, ok, pair)
    {
      steps := [Select(tok)];
      ghost var r := |rotations|;
      var found := SelectRow(tok);
      if found.None? {
        PrefixCons(Select(tok), CheckSteps(r, d0, d1), RenewSteps(r, newTok, d2, d3, ok), []);
        assert steps + [] == steps;
        return None, steps;
      }
      ghost var rest;
      pair, rest := CheckAndRenew(found.value, sessions[found.value], newTok, d0, d1, d2, d3, ok, r);
      ExecSplit(old(View()), steps, rest);
      PrefixCons(Select(tok), CheckSteps(r, d0, d1), RenewSteps(r, newTok, d2, d3, ok), rest);
      steps := steps + rest;
    }

    /** The SELECT. */
    method SelectRow(tok: nat) returns (found: Option<nat>)
      modifies this`rotations
      ensures View() == Exec(old(View()), [Select(tok)]) && found == Lookup(sessions, tok, Native)
      ensures match found
              case None => rotations == old(rotations)
              case Some(sid) => && sid < |sessions|
                                && rotations == old(rotations) + [Rotation(sid, sessions[sid], Selected)]
    {
      OneStep(View(), Select(tok));
      LookupFinds(sessions, tok, Native);
      found := Lookup(sessions, tok, Native);
      if found.Some? {
        rotations := rotations + [Rotation(found.value, sessions[found.value], Selected)];
      }
    }

    /** The part behind the SELECT. */
    method CheckAndRenew(sid: nat, row: Session, newTok: nat, d0: nat, d1: nat, d2: nat, d3: nat, ok: bool, ghost r: nat)
      returns (pair: Option<TokenPair>, ghost steps: seq<Step>)
      requires newTok !in used && sid < |sessions| && row == sessions[sid]
      requires r < |rotations| && rotations[r] == Rotation(sid, row, Selected)
      modifies this
      ensures View() == Exec(old(View()), steps)
      ensures steps <= CheckSteps(r, d0, d1) + RenewSteps(r, newTok, d2, d3, ok)
      ensures |rotations| == |old(rotations)| && (pair.Some? <==> rotations[r].stage == Done(newTok))
      ensures pair.Some? ==> minted == old(minted) + [pair.value.access]
      ensures Rotated(old(sessions), sessions, Some(sid), newTok, old(now), d0, d1, d2, now, ok, pair)
    {
      var passed;
      passed, steps := PassChecks(row, d0, d1, r);
      if !passed {
        return None, steps;
      }
      ExecSplit(old(View()), steps, RenewSteps(r, newTok, d2, d3, ok));
      steps := steps + RenewSteps(r, newTok, d2, d3, ok);
      pair := Renew(sid, newTok, d2, d3, ok, r);
    }
  }
}
