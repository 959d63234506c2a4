/**
  What each request of the token protocol answers and writes, row by row, in terms of the
  stored fields alone.
*/
module RotationLaws {
  import opened Common
  import opened RefreshRotation
  import opened RefreshInterleaving
  import RevokeInterleaving

  // ------------------------------------------------------------------ presenting a token

  /** A stored, unrevoked token is accepted up to the whole second before its stored expiry;
      a revoked one only if, besides, it was rotated no longer than the grace window ago. */
  lemma {:induction false} AcceptedIff(c: Config, s: Store, raw: nat, now: Time)
    requires Inv(c, s) && s.clock <= now
    ensures RefreshStep(c, s, raw, now).1.Issued? <==>
      && raw in s.rows
      && now < s.rows[raw].expiresAt - s.rows[raw].expiresAt % 1_000_000
      && (s.rows[raw].revoked ==> s.rows[raw].lastUsed.Some? && now - s.rows[raw].lastUsed.value <= c.grace)
  {
    if raw in s.rows { assert RowOk(s, raw); }
  }

  /** Reuse is detected exactly for a revoked token that is unexpired and out of its window. */
  lemma {:induction false} ReuseDetectedIff(c: Config, s: Store, raw: nat, now: Time)
    requires Inv(c, s) && s.clock <= now
    ensures RefreshStep(c, s, raw, now).1.ReuseDetected? <==>
      && raw in s.rows
      && now < s.rows[raw].expiresAt - s.rows[raw].expiresAt % 1_000_000
      && s.rows[raw].revoked
      && (s.rows[raw].lastUsed.None? || now - s.rows[raw].lastUsed.value > c.grace)
  {
    if raw in s.rows { assert RowOk(s, raw); }
  }

  /** What a presentation writes to the rows already stored. */
  lemma {:induction false} PresentationWrites(c: Config, s: Store, raw: nat, now: Time, t: nat)
    requires Inv(c, s) && s.clock <= now && t in s.rows
    ensures var (s', out) := RefreshStep(c, s, raw, now);
      && t in s'.rows && s'.users == s.users
      && (out.Rejected? ==> s'.rows == s.rows)
      && (out.ReuseDetected? ==>
            s'.rows.Keys == s.rows.Keys &&
            s'.rows[t] == if s.rows[t].family == s.rows[raw].family then s.rows[t].(revoked := true) else s.rows[t])
      && (out.Issued? ==>
            s'.rows[t] == if t == raw && !s.rows[t].revoked
                          then s.rows[t].(revoked := true, lastUsed := Some(now)) else s.rows[t])
  {
    assert RowOk(s, t);
  }

  /** A token just issued by a refresh is accepted at every later reading up to a second
      before one lifetime from its issue. */
  lemma {:induction false} SuccessorLives(c: Config, s: Store, raw: nat, now: Time, later: Time)
    requires Inv(c, s) && s.clock <= now && RefreshStep(c, s, raw, now).1.Issued?
    requires now <= later <= now + c.lifetime - 1_000_000
    ensures var (s', out) := RefreshStep(c, s, raw, now); RefreshStep(c, s', out.token, later).1.Issued?
  {
    InvRefresh(c, s, raw, now);
    SuccessorInheritsFamily(c, s, raw, now);
    UnexpiredIsAccepted(c, RefreshStep(c, s, raw, now).0, RefreshStep(c, s, raw, now).1.token, later);
  }

  lemma {:induction false} UnexpiredIsAccepted(c: Config, s: Store, t: nat, later: Time)
    requires Inv(c, s) && s.clock <= later && t in s.rows && !s.rows[t].revoked
    requires later <= s.rows[t].expiresAt - 1_000_000
    ensures RefreshStep(c, s, t, later).1.Issued?
  {
    AcceptedIff(c, s, t, later);
  }

  /** In a run, presenting a token is that step, and every step moves the clock to its reading. */
  lemma {:induction false} PresentingIsAStep(c: Config, s: Store, raw: nat, e: Timed)
    ensures Step(c, s, Timed(Refresh(raw), e.now)) == RefreshStep(c, s, raw, e.now).0
    ensures Step(c, s, e).clock == e.now
  {
  }

  // ------------------------------------------------------------------------------ login

  /** A login of a known user stores one live token with the session of the request, in a
      family that no row has, for one lifetime; nothing else changes. */
  lemma {:induction false} LoginStores(c: Config, s: Store, user: nat, session: Session, now: Time)
    requires Inv(c, s) && s.clock <= now
    ensures var s' := Step(c, s, Timed(Login(user, session), now));
      && s'.users == s.users && s'.clock == now
      && (user !in s.users ==> s'.rows == s.rows)
      && (user in s.users ==>
            && s.nextToken !in s.rows && s'.rows.Keys == s.rows.Keys + {s.nextToken}
            && (forall t | t in s.rows :: s'.rows[t] == s.rows[t] && s.rows[t].family != s'.rows[s.nextToken].family)
            && (var row := s'.rows[s.nextToken];
                && row.user == user && !row.revoked && row.lastUsed == None && row.session == session
                && row.createdAt == now && row.expiresAt == now + c.lifetime))
  {
    assert forall t | t in s.rows :: RowOk(s, t);
  }

  /** And that token is accepted up to a second before one lifetime from the login. */
  lemma {:induction false} LoginLives(c: Config, s: Store, user: nat, session: Session, now: Time, later: Time)
    requires Inv(c, s) && s.clock <= now && user in s.users && now <= later <= now + c.lifetime - 1_000_000
    ensures var s' := Step(c, s, Timed(Login(user, session), now)); RefreshStep(c, s', s.nextToken, later).1.Issued?
  {
    var e := Timed(Login(user, session), now);
    StepKeepsInv(c, s, e);
    LoginStores(c, s, user, session, now);
    UnexpiredIsAccepted(c, Step(c, s, e), s.nextToken, later);
  }

  // ------------------------------------------------------------------------- revocation

  /** The row is revoked if it is hit, and otherwise as it was. */
  predicate RevokedIf(before: Row, after: Row, hit: bool) {
    after == if hit then before.(revoked := true) else before
  }

  /** The tokens a revoke-all counts, and among which a session is found. */
  lemma {:induction false} LiveTokens(s: Store, user: nat, t: nat)
    ensures t in LiveOf(s, user) <==> t in s.rows && s.rows[t].user == user && !s.rows[t].revoked
  {
  }

  /** Which rows each revocation revokes; no row appears or disappears. */
  lemma {:induction false} RevocationRows(c: Config, s: Store, e: Timed, t: nat)
    requires t in s.rows && (e.event.Logout? || e.event.RevokeAll? || e.event.RevokeSession? || e.event.RevokeOthers?)
    ensures var s' := Step(c, s, e);
      && s'.users == s.users && s'.rows.Keys == s.rows.Keys
      && (match e.event
          case Logout(raw) => RevokedIf(s.rows[t], s'.rows[t], t == raw)
          case RevokeAll(user) => RevokedIf(s.rows[t], s'.rows[t], s.rows[t].user == user)
          case RevokeSession(user, id) => RevokedIf(s.rows[t], s'.rows[t], t == id && s.rows[t].user == user)
          case RevokeOthers(user, keep) => RevokedIf(s.rows[t], s'.rows[t], s.rows[t].user == user && t != keep)
          case _ => false)
  {
  }

  /** A token that was never rotated is refused forever once it is logged out. */
  lemma {:induction false} LogoutIsFinal(c: Config, s: Store, raw: nat, now: Time, run: seq<Timed>, later: Time)
    requires Inv(c, s) && s.clock <= now && Monotone(now, run)
    requires raw in s.rows && s.rows[raw].lastUsed.None?
    ensures !RefreshStep(c, Run(c, Step(c, s, Timed(Logout(raw), now)), run), raw, later).1.Issued?
  {
    var e := Timed(Logout(raw), now);
    StepKeepsInv(c, s, e);
    RevocationRows(c, s, e, raw);
    RevokedUnrotatedIsFinal(c, Step(c, s, e), run, raw, later);
  }

  /** After a revoke-all none of the user's tokens that were never rotated is accepted again. */
  lemma {:induction false} RevokeAllIsFinal(
    c: Config, s: Store, user: nat, now: Time, run: seq<Timed>, t: nat, later: Time)
    requires Inv(c, s) && s.clock <= now && Monotone(now, run)
    requires t in s.rows && s.rows[t].user == user && s.rows[t].lastUsed.None?
    ensures !RefreshStep(c, Run(c, Step(c, s, Timed(RevokeAll(user), now)), run), t, later).1.Issued?
  {
    var e := Timed(RevokeAll(user), now);
    StepKeepsInv(c, s, e);
    RevocationRows(c, s, e, t);
    RevokedUnrotatedIsFinal(c, Step(c, s, e), run, t, later);
  }

  /** Registering adds the user, deleting takes the user and just their rows away. */
  lemma {:induction false} AccountRows(c: Config, s: Store, user: nat, now: Time)
    ensures var s' := Step(c, s, Timed(Register(user), now)); s'.users == s.users + {user} && s'.rows == s.rows
    ensures var s' := Step(c, s, Timed(DeleteUser(user), now));
      && s'.users == s.users - {user}
      && (forall t :: t in s'.rows <==> t in s.rows && s.rows[t].user != user)
      && (forall t | t in s'.rows :: s'.rows[t] == s.rows[t])
  {
  }

  /** The revoke-all that falls between accesses writes what the atomic one does. */
  lemma {:induction false} InterleavedRevokeAll(c: Config, s: Store, w: World, user: nat, now: Time)
    requires w.rows == s.rows
    ensures RevokeInterleaving.RevokeUser(w, user).rows == Step(c, s, Timed(RevokeAll(user), now)).rows
    ensures RevokeInterleaving.RevokeUser(w, user) == w.(rows := RevokeInterleaving.RevokeUser(w, user).rows)
  {
    var e := Timed(RevokeAll(user), now);
    forall t | t in s.rows ensures RevokeInterleaving.RevokeUser(w, user).rows[t] == Step(c, s, e).rows[t] {
      RevocationRows(c, s, e, t);
    }
  }
}
