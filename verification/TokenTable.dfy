/** The refresh-token table in place: each request updates stored rows and is proved
    against the step of RefreshRotation that it performs. */
module TokenTable {
  import opened Common
  import opened RefreshRotation

  function NewRoot(c: Config, user: nat, family: nat, now: Time): Row {
    Row(user, family, false, now, now + c.lifetime, None, Session("", "", map[]))
  }

  function WithSession(s: Store, token: nat, session: Session): Store
    requires token in s.rows
  {
    s.(rows := s.rows[token := s.rows[token].(session := session)])
  }

  /** The store after a token pair was created at `now`. */
  function WithPair(c: Config, s: Store, user: nat, now: Time): Store {
    Insert(s.(clock := now, nextFamily := s.nextFamily + 1), NewRoot(c, user, s.nextFamily, now), LoggedIn)
  }

  /** The pair and then its session are the login step. */
  lemma {:induction false} PairThenSession(c: Config, s: Store, user: nat, session: Session, now: Time)
    requires user in s.users
    ensures s.nextToken in WithPair(c, s, user, now).rows
    ensures WithSession(WithPair(c, s, user, now), s.nextToken, session) == LoginStep(c, s, user, session, now)
  {
    var t, row := s.nextToken, NewRoot(c, user, s.nextFamily, now);
    assert s.rows[t := row][t := row.(session := session)] == s.rows[t := row.(session := session)];
  }

  function OthersRevoked(rows: map<nat, Row>, user: nat, keep: nat): map<nat, Row> {
    map t | t in rows ::
      if rows[t].user == user && !rows[t].revoked && t != keep then rows[t].(revoked := true) else rows[t]
  }

  function OneRevoked(rows: map<nat, Row>, id: nat): map<nat, Row>
    requires id in rows
  {
    rows[id := rows[id].(revoked := true)]
  }

  lemma {:induction false} OneRevokedIsStep(c: Config, s: Store, user: nat, id: nat, now: Time)
    ensures Step(c, s, Timed(RevokeSession(user, id), now)) ==
      s.(clock := now, rows := if id in LiveOf(s, user) then OneRevoked(s.rows, id) else s.rows)
  {
    if id in LiveOf(s, user) {
      assert Revoke(s.rows, LiveOf(s, user) * {id}) == OneRevoked(s.rows, id);
    } else {
      assert Revoke(s.rows, LiveOf(s, user) * {id}) == s.rows;
    }
  }

  lemma {:induction false} OthersRevokedIsStep(c: Config, s: Store, user: nat, keep: nat, now: Time)
    ensures s.(clock := now, rows := OthersRevoked(s.rows, user, keep))
         == Step(c, s, Timed(RevokeOthers(user, keep), now))
  {
    assert OthersRevoked(s.rows, user, keep) == Revoke(s.rows, LiveOf(s, user) - {keep});
  }

  class JwtManager {
    const config: Config
    var rows: map<nat, Row>
    var users: set<nat>
    var nextToken: nat
    var nextFamily: nat
    ghost var origins: map<nat, Origin>
    ghost var clock: Time

    ghost function State(): Store
      reads this
    {
      Store(rows, origins, users, nextToken, nextFamily, clock)
    }

    ghost predicate Valid()
      reads this
    {
      Inv(config, State())
    }

    constructor (config: Config)
      requires config.grace >= 0
      ensures this.config == config && State() == EMPTY && Valid()
    {
      this.config := config;
      rows, users, nextToken, nextFamily, origins, clock := map[], {}, 0, 0, map[], 0;
    }

    /** Stores the digest row of a freshly signed refresh token. */
    method CreateRow(row: Row, ghost origin: Origin) returns (token: nat)
      modifies this`rows, this`origins, this`nextToken
      ensures token == old(nextToken) && State() == Insert(old(State()), row, origin)
    {
      token := nextToken;
      rows := rows[token := row];
      origins := origins[token := origin];
      nextToken := nextToken + 1;
    }

    /** A token pair in a new family, not yet bound to a session. */
    method CreateTokenPair(user: nat, now: Time) returns (token: nat)
      modifies this`rows, this`origins, this`nextToken, this`nextFamily
      ensures token == old(nextToken)
      ensures State() == WithPair(config, old(State()), user, now).(clock := clock)
    {
      token := CreateRow(NewRoot(config, user, nextFamily, now), LoggedIn);
      nextFamily := nextFamily + 1;
    }

    /** A login: a token pair in a new family, then the session metadata of the request. */
    method Login(user: nat, session: Session, now: Time) returns (token: Option<nat>)
      requires Valid() && clock <= now
      modifies this
      ensures State() == Step(config, old(State()), Timed(Event.Login(user, session), now))
      ensures token == if user in users then Some(old(nextToken)) else None
      ensures Valid()
    {
      StepKeepsInv(config, State(), Timed(Event.Login(user, session), now));
      if user in users { PairThenSession(config, State(), user, session, now); }
      clock := now;
      if user !in users { return None; }
      var t := CreateTokenPair(user, now);
      SaveSession(t, session);
      token := Some(t);
    }

    method SaveSession(token: nat, session: Session)
      requires token in rows
      modifies this`rows
      ensures State() == WithSession(old(State()), token, session)
    {
      rows := rows[token := rows[token].(session := session)];
    }

    method RevokeFamily(family: nat)
      modifies this`rows
      ensures State() == old(State()).(rows := Revoke(old(rows), Members(old(State()), family)))
    {
      ghost var before := State();
      rows := map t | t in rows ::
        if rows[t].family == family && !rows[t].revoked then rows[t].(revoked := true) else rows[t];
      assert rows == Revoke(before.rows, Members(before, family));
    }

    /** The successor row, with the presented token's family and session. */
    method IssueSuccessor(row: Row, now: Time, ghost origin: Origin) returns (token: nat)
      modifies this`rows, this`origins, this`nextToken
      ensures token == old(nextToken) && State() == Insert(old(State()), Child(config, row, now), origin)
    {
      token := CreateRow(Row(row.user, row.family, false, now, now + config.lifetime, None, row.session), origin);
    }

    method RefreshAccessToken(raw: nat, now: Time) returns (out: Outcome)
      requires Valid() && clock <= now
      modifies this
      ensures (State(), out) == RefreshStep(config, old(State()), raw, now)
      ensures Valid()
    {
      InvRefresh(config, State(), raw, now);
      clock := now;
      if raw !in rows || !JwtLive(rows[raw], now) { return Rejected; }
      var row := rows[raw];
      if row.revoked {
        if !WithinGrace(config, row, now) {
          RevokeFamily(row.family);
          return ReuseDetected;
        }
      } else if row.expiresAt <= now {
        return Rejected;
      }
      if row.user !in users { return Rejected; }
      ghost var origin := if row.revoked then Fork(raw) else Successor(raw);
      if !row.revoked {
        rows := rows[raw := row.(revoked := true, lastUsed := Some(now))];
      }
      var token := IssueSuccessor(row, now, origin);
      out := Issued(token);
    }

    method RevokeRefreshToken(raw: nat, now: Time) returns (found: bool)
      requires Valid() && clock <= now
      modifies this
      ensures State() == Step(config, old(State()), Timed(Logout(raw), now))
      ensures found <==> raw in old(rows)
      ensures Valid()
    {
      StepKeepsInv(config, State(), Timed(Logout(raw), now));
      clock := now;
      found := raw in rows;
      if found { rows := rows[raw := rows[raw].(revoked := true)]; }
    }

    /** Logout without a token, revoking all sessions, password reset, account deletion. */
    method RevokeAllUserTokens(user: nat, now: Time) returns (count: nat)
      requires Valid() && clock <= now
      modifies this
      ensures State() == Step(config, old(State()), Timed(RevokeAll(user), now))
      ensures count == |LiveOf(old(State()), user)|
      ensures Valid()
    {
      StepKeepsInv(config, State(), Timed(RevokeAll(user), now));
      clock := now;
      var live := set t | t in rows && rows[t].user == user && !rows[t].revoked;
      assert live == LiveOf(old(State()), user);
      rows := map t | t in rows :: if t in live then rows[t].(revoked := true) else rows[t];
      count := |live|;
    }

    /** SessionListView.delete of one session: only the owner's live sessions are found. */
    method RevokeOneSession(user: nat, id: nat, now: Time) returns (found: bool)
      requires Valid() && clock <= now
      modifies this
      ensures State() == Step(config, old(State()), Timed(RevokeSession(user, id), now))
      ensures found <==> id in LiveOf(old(State()), user)
      ensures Valid()
    {
      StepKeepsInv(config, State(), Timed(RevokeSession(user, id), now));
      OneRevokedIsStep(config, State(), user, id, now);
      clock := now;
      found := id in rows && rows[id].user == user && !rows[id].revoked;
      if found { rows := OneRevoked(rows, id); }
    }

    /** ChangePasswordView with `logout_other_sessions`: every live session but the kept one. */
    method RevokeOtherSessions(user: nat, keep: nat, now: Time)
      requires Valid() && clock <= now
      modifies this
      ensures State() == Step(config, old(State()), Timed(RevokeOthers(user, keep), now))
      ensures Valid()
    {
      StepKeepsInv(config, State(), Timed(RevokeOthers(user, keep), now));
      OthersRevokedIsStep(config, State(), user, keep, now);
      clock := now;
      rows := OthersRevoked(rows, user, keep);
    }
  }
}
