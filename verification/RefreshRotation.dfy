/**
  Refresh-token rotation with families, reuse detection and a reuse-grace window.

  A store row is one issued refresh token. Raw tokens are modelled by the number under
  which they were issued, so the stored digest of an issued token is injective, a token
  that was never issued is simply absent, and a fresh family is a fresh number. Every
  request is one atomic step with one clock reading; RefreshInterleaving splits it.
*/
module RefreshRotation {
  import opened Common

  datatype Config = Config(grace: Time, lifetime: Time)

  /** What SessionListView shows, carried from a token to its successors. */
  datatype Session = Session(userAgent: string, ip: string, metadata: map<string, string>)

  datatype Row = Row(
    user: nat, family: nat, revoked: bool, createdAt: Time, expiresAt: Time,
    lastUsed: Option<Time>, session: Session)

  /** History the source does not store: how a token came to be issued. */
  datatype Origin = LoggedIn | Successor(parent: nat) | Fork(parent: nat)

  datatype Store = Store(
    rows: map<nat, Row>, origins: map<nat, Origin>, users: set<nat>,
    nextToken: nat, nextFamily: nat, clock: Time)

  datatype Outcome = Rejected | ReuseDetected | Issued(token: nat)

  datatype Event =
    | Register(user: nat)
    | Login(user: nat, session: Session)
    | Refresh(raw: nat)
    | Logout(raw: nat)
    | RevokeAll(user: nat)
    | RevokeSession(user: nat, id: nat)
    | RevokeOthers(user: nat, keep: nat)
    | DeleteUser(user: nat)

  datatype Timed = Timed(event: Event, now: Time)

  // ------------------------------------------------------------------ the protocol

  predicate WithinGrace(c: Config, row: Row, now: Time) {
    row.lastUsed.Some? && now - row.lastUsed.value <= c.grace
  }

  /** The JWT check: the signed expiry is the row's, cut to whole seconds. */
  predicate JwtLive(row: Row, now: Time) {
    now < FloorSecond(row.expiresAt)
  }

  function Revoke(rows: map<nat, Row>, hit: set<nat>): map<nat, Row> {
    map t | t in rows :: if t in hit then rows[t].(revoked := true) else rows[t]
  }

  function Members(s: Store, f: nat): set<nat> {
    set t | t in s.rows && s.rows[t].family == f
  }

  function LiveOf(s: Store, user: nat): set<nat> {
    set t | t in s.rows && s.rows[t].user == user && !s.rows[t].revoked
  }

  function Insert(s: Store, row: Row, origin: Origin): Store {
    s.(rows := s.rows[s.nextToken := row],
       origins := s.origins[s.nextToken := origin],
       nextToken := s.nextToken + 1)
  }

  function Rotated(s: Store, raw: nat): Store
    requires raw in s.rows
  {
    s.(rows := s.rows[raw := s.rows[raw].(revoked := true, lastUsed := Some(s.clock))])
  }

  function Child(c: Config, row: Row, now: Time): Row {
    Row(row.user, row.family, false, now, now + c.lifetime, None, row.session)
  }

  function LoginStep(c: Config, s: Store, user: nat, session: Session, now: Time): Store {
    if user !in s.users then s.(clock := now)
    else
      var row := Row(user, s.nextFamily, false, now, now + c.lifetime, None, session);
      Insert(s.(clock := now, nextFamily := s.nextFamily + 1), row, LoggedIn)
  }

  function RefreshStep(c: Config, s: Store, raw: nat, now: Time): (Store, Outcome) {
    var s := s.(clock := now);
    if raw !in s.rows || !JwtLive(s.rows[raw], now) then (s, Rejected)
    else
      var row := s.rows[raw];
      if row.revoked && !WithinGrace(c, row, now) then
        (s.(rows := Revoke(s.rows, Members(s, row.family))), ReuseDetected)
      else if !row.revoked && row.expiresAt <= now then (s, Rejected)
      else if row.user !in s.users then (s, Rejected)
      else
        var rotated := if row.revoked then s else Rotated(s, raw);
        var origin := if row.revoked then Fork(raw) else Successor(raw);
        (Insert(rotated, Child(c, row, now), origin), Issued(s.nextToken))
  }

  function Step(c: Config, s: Store, e: Timed): Store {
    var at := s.(clock := e.now);
    match e.event
    case Register(u) => at.(users := s.users + {u})
    case Login(u, session) => LoginStep(c, s, u, session, e.now)
    case Refresh(raw) => RefreshStep(c, s, raw, e.now).0
    case Logout(raw) => at.(rows := Revoke(s.rows, {raw}))
    case RevokeAll(u) => at.(rows := Revoke(s.rows, LiveOf(s, u)))
    case RevokeSession(u, id) => at.(rows := Revoke(s.rows, LiveOf(s, u) * {id}))
    case RevokeOthers(u, keep) => at.(rows := Revoke(s.rows, LiveOf(s, u) - {keep}))
    case DeleteUser(u) =>
      at.(rows := map t | t in s.rows && s.rows[t].user != u :: s.rows[t],
          origins := map t | t in s.origins && (t in s.rows ==> s.rows[t].user != u) :: s.origins[t],
          users := s.users - {u})
  }

  function Run(c: Config, s: Store, run: seq<Timed>): Store
    decreases |run|
  {
    if run == [] then s else Run(c, Step(c, s, run[0]), run[1..])
  }

  /** The clock never goes back along a run that starts at `from`. */
  ghost predicate Monotone(from: Time, run: seq<Timed>)
    decreases |run|
  {
    run == [] || (from <= run[0].now && Monotone(run[0].now, run[1..]))
  }

  const EMPTY: Store := Store(map[], map[], {}, 0, 0, 0)

  // -------------------------------------------------------------------- invariant

  function NeverRotated(s: Store, f: nat): set<nat> {
    set t | t in s.rows && s.rows[t].family == f && s.rows[t].lastUsed.None?
  }

  function Forks(s: Store, f: nat): set<nat> {
    set t | t in s.rows && t in s.origins && s.rows[t].family == f && s.origins[t].Fork?
  }

  ghost predicate RowOk(s: Store, t: nat)
    requires t in s.rows
  {
    var row := s.rows[t];
    && t < s.nextToken && row.family < s.nextFamily && row.user in s.users
    && row.createdAt <= s.clock
    && (row.lastUsed.Some? ==> row.revoked && row.lastUsed.value <= s.clock)
  }

  /** A token lives one lifetime and, unless a login issued it, descends from a rotated
      token of its family: at the rotation itself, or as a fork within the grace window. */
  ghost predicate BirthOk(c: Config, s: Store, t: nat)
    requires t in s.rows && t in s.origins
  {
    && s.rows[t].expiresAt == s.rows[t].createdAt + c.lifetime
    && (s.origins[t].LoggedIn? ||
        var parent := s.origins[t].parent;
        && parent in s.rows && parent < t
        && s.rows[parent].family == s.rows[t].family
        && s.rows[parent].user == s.rows[t].user
        && s.rows[parent].session == s.rows[t].session
        && s.rows[parent].lastUsed.Some?
        && s.rows[parent].lastUsed.value <= s.rows[t].createdAt
        && s.rows[t].createdAt <= s.rows[parent].lastUsed.value + c.grace
        && (s.origins[t].Successor? ==> s.rows[t].createdAt == s.rows[parent].lastUsed.value))
  }

  ghost predicate FamilyHasOneUser(s: Store) {
    forall t, u | t in s.rows && u in s.rows && s.rows[t].family == s.rows[u].family ::
      s.rows[t].user == s.rows[u].user
  }

  ghost predicate CountOk(s: Store, f: nat) {
    Members(s, f) == {} || |NeverRotated(s, f)| == 1 + |Forks(s, f)|
  }

  ghost predicate Shape(c: Config, s: Store) {
    && c.grace >= 0
    && s.origins.Keys == s.rows.Keys
    && (forall t | t in s.rows :: RowOk(s, t))
    && (forall t | t in s.rows :: BirthOk(c, s, t))
    && FamilyHasOneUser(s)
  }

  ghost predicate Inv(c: Config, s: Store) {
    Shape(c, s) && forall f: nat :: CountOk(s, f)
  }

  /** The counts see only the family, the rotation stamp and the origin of each row. */
  lemma {:induction false} SameCounts(s: Store, s': Store, f: nat)
    requires s.origins == s'.origins && s.rows.Keys == s'.rows.Keys
    requires forall t | t in s.rows ::
               s'.rows[t].family == s.rows[t].family && s'.rows[t].lastUsed == s.rows[t].lastUsed
    requires CountOk(s, f)
    ensures CountOk(s', f)
  {
    assert Members(s, f) == Members(s', f);
    assert NeverRotated(s, f) == NeverRotated(s', f);
    assert Forks(s, f) == Forks(s', f);
  }

  lemma {:induction false} InvTick(c: Config, s: Store, now: Time)
    requires Inv(c, s) && s.clock <= now
    ensures Inv(c, s.(clock := now))
  {
    var s' := s.(clock := now);
    forall t | t in s'.rows ensures RowOk(s', t) && BirthOk(c, s', t) {
      assert RowOk(s, t) && BirthOk(c, s, t);
    }
    forall f: nat ensures CountOk(s', f) { SameCounts(s, s', f); }
  }

  lemma {:induction false} InvRevoke(c: Config, s: Store, hit: set<nat>)
    requires Inv(c, s)
    ensures Inv(c, s.(rows := Revoke(s.rows, hit)))
  {
    var s' := s.(rows := Revoke(s.rows, hit));
    forall t | t in s'.rows ensures RowOk(s', t) && BirthOk(c, s', t) {
      assert RowOk(s, t) && BirthOk(c, s, t);
    }
    forall f: nat ensures CountOk(s', f) { SameCounts(s, s', f); }
  }

  /** Adding one row keeps the shape when the row itself is well formed. */
  lemma {:induction false} ShapeInsert(c: Config, s: Store, row: Row, origin: Origin)
    requires Shape(c, s)
    requires row.family < s.nextFamily && row.user in s.users && row.createdAt <= s.clock
    requires row.lastUsed.None?
    requires forall t | t in s.rows && s.rows[t].family == row.family :: s.rows[t].user == row.user
    requires BirthOk(c, Insert(s, row, origin), s.nextToken)
    ensures Shape(c, Insert(s, row, origin))
  {
    var s' := Insert(s, row, origin);
    assert forall t | t in s.rows :: RowOk(s, t);
    forall t | t in s'.rows ensures RowOk(s', t) && BirthOk(c, s', t) {
      if t in s.rows { assert RowOk(s, t) && BirthOk(c, s, t); }
    }
  }

  lemma {:induction false} CountInsert(c: Config, s: Store, row: Row, origin: Origin, f: nat)
    requires Shape(c, s) && row.lastUsed.None?
    ensures var s', t := Insert(s, row, origin), s.nextToken;
      && t !in s.rows
      && Members(s', f) == Members(s, f) + (if row.family == f then {t} else {})
      && NeverRotated(s', f) == NeverRotated(s, f) + (if row.family == f then {t} else {})
      && Forks(s', f) == Forks(s, f) + (if row.family == f && origin.Fork? then {t} else {})
  {
    var s', t := Insert(s, row, origin), s.nextToken;
    assert forall u | u in s.rows :: RowOk(s, u);
    assert Members(s', f) == Members(s, f) + (if row.family == f then {t} else {});
    assert NeverRotated(s', f) == NeverRotated(s, f) + (if row.family == f then {t} else {});
    assert Forks(s', f) == Forks(s, f) + (if row.family == f && origin.Fork? then {t} else {});
  }

  /** A row in a family of its own is the family's root. */
  lemma {:induction false} InvRoot(c: Config, s: Store, row: Row)
    requires Inv(c, s) && row.user in s.users && row.family < s.nextFamily
    requires row.createdAt <= s.clock && row.lastUsed.None?
    requires row.expiresAt == row.createdAt + c.lifetime
    requires Members(s, row.family) == {}
    ensures Inv(c, Insert(s, row, LoggedIn))
  {
    assert forall t | t in s.rows :: t in Members(s, s.rows[t].family);
    ShapeInsert(c, s, row, LoggedIn);
    forall f: nat ensures CountOk(Insert(s, row, LoggedIn), f) {
      CountInsert(c, s, row, LoggedIn, f);
      assert CountOk(s, f);
      if f == row.family { assert NeverRotated(s, f) <= Members(s, f) && Forks(s, f) <= Members(s, f); }
    }
  }

  lemma {:induction false} InvLogin(c: Config, s: Store, user: nat, session: Session, now: Time)
    requires Inv(c, s) && s.clock <= now
    ensures Inv(c, LoginStep(c, s, user, session, now))
  {
    InvTick(c, s, now);
    if user in s.users {
      var at := s.(clock := now);
      var started := at.(nextFamily := s.nextFamily + 1);
      var row := Row(user, s.nextFamily, false, now, now + c.lifetime, None, session);
      assert LoginStep(c, s, user, session, now) == Insert(started, row, LoggedIn);
      InvNextFamily(c, at);
      InvRoot(c, started, row);
    }
  }

  /** A number not yet handed out names no family. */
  lemma {:induction false} InvNextFamily(c: Config, s: Store)
    requires Inv(c, s)
    ensures Inv(c, s.(nextFamily := s.nextFamily + 1))
    ensures Members(s.(nextFamily := s.nextFamily + 1), s.nextFamily) == {}
  {
    var s' := s.(nextFamily := s.nextFamily + 1);
    forall t | t in s.rows
      ensures RowOk(s', t) && BirthOk(c, s', t) && s.rows[t].family < s.nextFamily
    {
      assert RowOk(s, t) && BirthOk(c, s, t);
    }
    forall f: nat ensures CountOk(s', f) { SameCounts(s, s', f); }
  }

  lemma {:induction false} ShapeRotate(c: Config, s: Store, raw: nat)
    requires Shape(c, s) && raw in s.rows && !s.rows[raw].revoked
    ensures Shape(c, Rotated(s, raw))
  {
    var s' := Rotated(s, raw);
    forall t | t in s'.rows ensures RowOk(s', t) && BirthOk(c, s', t) {
      assert RowOk(s, t) && BirthOk(c, s, t) && RowOk(s, raw);
    }
  }

  lemma {:induction false} CountRotate(s: Store, raw: nat, f: nat)
    requires raw in s.rows
    ensures var s' := Rotated(s, raw);
      && Members(s', f) == Members(s, f)
      && NeverRotated(s', f) == NeverRotated(s, f) - {raw}
      && Forks(s', f) == Forks(s, f)
  {
    var s' := Rotated(s, raw);
    assert Members(s', f) == Members(s, f);
    assert NeverRotated(s', f) == NeverRotated(s, f) - {raw};
    assert Forks(s', f) == Forks(s, f);
  }

  lemma {:induction false} InvSuccessor(c: Config, s: Store, raw: nat)
    requires Inv(c, s) && raw in s.rows && !s.rows[raw].revoked
    ensures Inv(c, Insert(Rotated(s, raw), Child(c, s.rows[raw], s.clock), Successor(raw)))
  {
    var row := s.rows[raw];
    var child := Child(c, row, s.clock);
    var r := Rotated(s, raw);
    assert RowOk(s, raw);
    ShapeRotate(c, s, raw);
    ShapeInsert(c, r, child, Successor(raw));
    forall f: nat ensures CountOk(Insert(r, child, Successor(raw)), f) { SuccessorCounts(c, s, raw, f); }
  }

  lemma {:induction false} SuccessorCounts(c: Config, s: Store, raw: nat, f: nat)
    requires Inv(c, s) && raw in s.rows && !s.rows[raw].revoked
    requires Shape(c, Rotated(s, raw))
    ensures CountOk(Insert(Rotated(s, raw), Child(c, s.rows[raw], s.clock), Successor(raw)), f)
  {
    assert RowOk(s, raw) && CountOk(s, f);
    CountRotate(s, raw, f);
    CountInsert(c, Rotated(s, raw), Child(c, s.rows[raw], s.clock), Successor(raw), f);
    if f == s.rows[raw].family {
      assert raw in Members(s, f) && raw in NeverRotated(s, f);
    }
  }

  lemma {:induction false} InvFork(c: Config, s: Store, raw: nat)
    requires Inv(c, s) && raw in s.rows && s.rows[raw].revoked
    requires WithinGrace(c, s.rows[raw], s.clock)
    ensures Inv(c, Insert(s, Child(c, s.rows[raw], s.clock), Fork(raw)))
  {
    var row := s.rows[raw];
    var child := Child(c, row, s.clock);
    assert RowOk(s, raw);
    ShapeInsert(c, s, child, Fork(raw));
    forall f: nat ensures CountOk(Insert(s, child, Fork(raw)), f) {
      assert CountOk(s, f);
      CountInsert(c, s, child, Fork(raw), f);
      if f == row.family { assert raw in Members(s, f); }
    }
  }

  lemma {:induction false} InvRefresh(c: Config, s: Store, raw: nat, now: Time)
    requires Inv(c, s) && s.clock <= now
    ensures Inv(c, RefreshStep(c, s, raw, now).0)
  {
    InvTick(c, s, now);
    var at := s.(clock := now);
    match RefreshStep(c, s, raw, now).1
    case Rejected =>
    case ReuseDetected => InvRevoke(c, at, Members(at, s.rows[raw].family));
    case Issued(_) => if s.rows[raw].revoked { InvFork(c, at, raw); } else { InvSuccessor(c, at, raw); }
  }

  lemma {:induction false} InvDelete(c: Config, s: Store, e: Timed)
    requires Inv(c, s) && s.clock <= e.now && e.event.DeleteUser?
    ensures Inv(c, Step(c, s, e))
  {
    var s' := Step(c, s, e);
    assert s'.origins.Keys == s'.rows.Keys;
    forall t | t in s'.rows ensures RowOk(s', t) && BirthOk(c, s', t) {
      assert RowOk(s, t) && BirthOk(c, s, t);
    }
    forall f: nat ensures CountOk(s', f) {
      assert CountOk(s, f);
      if Members(s', f) != {} {
        var kept :| kept in Members(s', f);
        assert forall t | t in Members(s, f) :: s.rows[t].user == s.rows[kept].user;
        assert NeverRotated(s', f) == NeverRotated(s, f);
        assert Forks(s', f) == Forks(s, f);
      }
    }
  }

  lemma {:induction false} StepKeepsInv(c: Config, s: Store, e: Timed)
    requires Inv(c, s) && s.clock <= e.now
    ensures Inv(c, Step(c, s, e)) && Step(c, s, e).clock == e.now
  {
    InvTick(c, s, e.now);
    var at := s.(clock := e.now);
    match e.event
    case Register(u) =>
      var s' := Step(c, s, e);
      forall t | t in s'.rows ensures RowOk(s', t) && BirthOk(c, s', t) {
        assert RowOk(s, t) && BirthOk(c, s, t);
      }
      forall f: nat ensures CountOk(s', f) { SameCounts(s, s', f); }
    case Login(u, session) => InvLogin(c, s, u, session, e.now);
    case Refresh(raw) => InvRefresh(c, s, raw, e.now);
    case Logout(raw) => InvRevoke(c, at, {raw});
    case RevokeAll(u) => InvRevoke(c, at, LiveOf(s, u));
    case RevokeSession(u, id) => InvRevoke(c, at, LiveOf(s, u) * {id});
    case RevokeOthers(u, keep) => InvRevoke(c, at, LiveOf(s, u) - {keep});
    case DeleteUser(u) => InvDelete(c, s, e);
  }

  lemma {:induction false} RunKeepsInv(c: Config, s: Store, run: seq<Timed>)
    requires Inv(c, s) && Monotone(s.clock, run)
    ensures Inv(c, Run(c, s, run)) && s.clock <= Run(c, s, run).clock
    decreases |run|
  {
    if run != [] {
      StepKeepsInv(c, s, run[0]);
      RunKeepsInv(c, Step(c, s, run[0]), run[1..]);
    }
  }

  // ----------------------------------------------------------------- conservation

  function Live(s: Store, f: nat): set<nat> {
    set t | t in s.rows && s.rows[t].family == f && !s.rows[t].revoked
  }

  /** Revoked by logout, session revocation, revoke-all or a family kill, never rotated. */
  function RevokedUnrotated(s: Store, f: nat): set<nat> {
    set t | t in s.rows && s.rows[t].family == f && s.rows[t].revoked && s.rows[t].lastUsed.None?
  }

  /** In every reachable state a family's live and unrotated-revoked members number one
      more than its grace reuses, and every member not issued by a login descends, within
      the grace window, from a rotated member with its family, user and session. */
  lemma {:induction false} FamilyConservation(c: Config, run: seq<Timed>, f: nat)
    requires c.grace >= 0 && Monotone(0, run)
    ensures var s := Run(c, EMPTY, run);
      Members(s, f) != {} ==>
        && |Live(s, f)| + |RevokedUnrotated(s, f)| == 1 + |Forks(s, f)|
        && forall t | t in Members(s, f) :: t in s.origins && BirthOk(c, s, t)
  {
    RunKeepsInv(c, EMPTY, run);
    var s := Run(c, EMPTY, run);
    assert CountOk(s, f);
    forall t | t in s.rows ensures s.rows[t].lastUsed.Some? ==> s.rows[t].revoked {
      assert RowOk(s, t);
    }
    assert NeverRotated(s, f) == Live(s, f) + RevokedUnrotated(s, f);
  }

  // ------------------------------------------------------------- the grace anchor

  /** What any step leaves of a row that is still stored: revocation is final, and the
      rotation stamp is written at most once, by the step that first revokes the row. */
  ghost predicate RowAdvances(before: Row, after: Row) {
    && after == before.(revoked := after.revoked, lastUsed := after.lastUsed)
    && (before.revoked ==> after == before)
    && (after.lastUsed.Some? ==> after.revoked)
  }

  lemma {:induction false} StepAdvances(c: Config, s: Store, e: Timed, t: nat)
    requires Inv(c, s) && t in s.rows && t in Step(c, s, e).rows
    ensures RowAdvances(s.rows[t], Step(c, s, e).rows[t])
  {
    assert RowOk(s, t);
  }

  /** Row numbers are never reused: what is stored now was stored or issued before. */
  lemma {:induction false} RunAdvances(c: Config, s: Store, run: seq<Timed>, t: nat)
    requires Inv(c, s) && Monotone(s.clock, run) && t < s.nextToken
    ensures s.nextToken <= Run(c, s, run).nextToken
    ensures t in Run(c, s, run).rows ==> t in s.rows && RowAdvances(s.rows[t], Run(c, s, run).rows[t])
    decreases |run|
  {
    if t in s.rows { assert RowOk(s, t); }
    if run != [] {
      var s' := Step(c, s, run[0]);
      StepKeepsInv(c, s, run[0]);
      RunAdvances(c, s', run[1..], t);
      if t in s'.rows { StepAdvances(c, s, run[0], t); }
    }
  }

  predicate Accepts(c: Config, s: Store, raw: nat, now: Time) {
    RefreshStep(c, s, raw, now).1.Issued?
  }

  /** Two successful presentations of one raw token are at most `grace` apart, whatever
      happens between them: replaying a token cannot keep its window open. */
  lemma {:induction false} GraceNeverSlides(c: Config, s: Store, raw: nat, first: Time, run: seq<Timed>, second: Time)
    requires Inv(c, s) && s.clock <= first && Monotone(first, run)
    requires Accepts(c, s, raw, first)
    requires var s' := Run(c, RefreshStep(c, s, raw, first).0, run); s'.clock <= second && Accepts(c, s', raw, second)
    ensures second - first <= c.grace
  {
    var s1 := RefreshStep(c, s, raw, first).0;
    InvRefresh(c, s, raw, first);
    assert RowOk(s, raw);
    RunAdvances(c, s1, run, raw);
  }

  /** A token revoked by any path other than its own rotation never succeeds again. */
  lemma {:induction false} RevokedUnrotatedIsFinal(c: Config, s: Store, run: seq<Timed>, raw: nat, now: Time)
    requires Inv(c, s) && Monotone(s.clock, run)
    requires raw in s.rows && s.rows[raw].revoked && s.rows[raw].lastUsed.None?
    ensures !Accepts(c, Run(c, s, run), raw, now)
  {
    assert RowOk(s, raw);
    RunAdvances(c, s, run, raw);
  }

  /** An accepted presentation issues one new live token, with the family, user and session
      of the presented one and a full lifetime, and leaves every other row as it was. */
  lemma {:induction false} SuccessorInheritsFamily(c: Config, s: Store, raw: nat, now: Time)
    requires Inv(c, s) && Accepts(c, s, raw, now)
    ensures var (s', out) := RefreshStep(c, s, raw, now);
      && raw in s.rows && out.token !in s.rows && s'.rows.Keys == s.rows.Keys + {out.token}
      && (var child, parent := s'.rows[out.token], s.rows[raw];
          && !child.revoked && child.lastUsed.None? && child.createdAt == now && child.expiresAt == now + c.lifetime
          && child.family == parent.family && child.user == parent.user && child.session == parent.session
          && child.user in s.users)
      && s'.rows[raw].revoked && s'.rows[raw].lastUsed.Some?
      && (forall t | t in s.rows && t != raw :: s'.rows[t] == s.rows[t])
  {
    assert forall t | t in s.rows :: RowOk(s, t);
  }

  /** A presentation, accepted or punished, touches no other family. */
  lemma {:induction false} RefreshStaysInFamily(c: Config, s: Store, raw: nat, now: Time, t: nat)
    requires Inv(c, s) && t in s.rows && (raw in s.rows ==> s.rows[raw].family != s.rows[t].family)
    ensures var s' := RefreshStep(c, s, raw, now).0;
      && t in s'.rows && s'.rows[t] == s.rows[t]
      && Members(s', s.rows[t].family) == Members(s, s.rows[t].family)
  {
    assert RowOk(s, t);
    assert Members(RefreshStep(c, s, raw, now).0, s.rows[t].family) == Members(s, s.rows[t].family);
  }

  // ------------------------------------------------------------- family extinction

  ghost predicate AllRevoked(s: Store, f: nat) {
    forall t | t in Members(s, f) :: s.rows[t].revoked
  }

  /** A member that a presentation at the current clock reading would still fork. */
  predicate Forkable(c: Config, s: Store, t: nat)
    requires t in s.rows
  {
    WithinGrace(c, s.rows[t], s.clock) && JwtLive(s.rows[t], s.clock)
  }

  ghost predicate Extinct(c: Config, s: Store, f: nat) {
    AllRevoked(s, f) && forall t | t in Members(s, f) :: !Forkable(c, s, t)
  }

  lemma {:induction false} ExtinctStep(c: Config, s: Store, e: Timed, f: nat)
    requires Inv(c, s) && s.clock <= e.now && f < s.nextFamily && Extinct(c, s, f)
    ensures var s' := Step(c, s, e);
      && f < s'.nextFamily && Members(s', f) <= Members(s, f) && Extinct(c, s', f)
      && (e.event.Refresh? && e.event.raw in Members(s, f) ==> !Accepts(c, s, e.event.raw, e.now))
  {
    var s' := Step(c, s, e);
    forall raw | raw in Members(s, f) ensures !Accepts(c, s, raw, e.now) { ExtinctRefuses(c, s, e.now, f, raw); }
    forall t | t in Members(s', f) ensures t in Members(s, f) && s'.rows[t].revoked && !Forkable(c, s', t) {
      ExtinctGainsNoMember(c, s, e, f, t);
      StepAdvances(c, s, e, t);
      assert !Forkable(c, s, t);
    }
  }

  lemma {:induction false} ExtinctRefuses(c: Config, s: Store, now: Time, f: nat, raw: nat)
    requires s.clock <= now && Extinct(c, s, f) && raw in Members(s, f)
    ensures !Accepts(c, s, raw, now)
  {
    assert !Forkable(c, s, raw);
  }

  lemma {:induction false} ExtinctGainsNoMember(c: Config, s: Store, e: Timed, f: nat, t: nat)
    requires s.clock <= e.now && f < s.nextFamily && Extinct(c, s, f) && t in Members(Step(c, s, e), f)
    ensures t in Members(s, f)
  {
    if e.event.Refresh? && e.event.raw in Members(s, f) { ExtinctRefuses(c, s, e.now, f, e.event.raw); }
  }

  lemma {:induction false} ExtinctForever(c: Config, s: Store, run: seq<Timed>, f: nat)
    requires Inv(c, s) && Monotone(s.clock, run) && f < s.nextFamily && Extinct(c, s, f)
    ensures var s' := Run(c, s, run); Members(s', f) <= Members(s, f) && Extinct(c, s', f) && f < s'.nextFamily
    decreases |run|
  {
    if run != [] {
      StepKeepsInv(c, s, run[0]);
      ExtinctStep(c, s, run[0], f);
      ExtinctForever(c, Step(c, s, run[0]), run[1..], f);
    }
  }

  /** No continuation of `s` ever accepts a member of the family. */
  ghost predicate DeadForever(c: Config, s: Store, f: nat) {
    forall run: seq<Timed>, raw: nat, now: Time ::
      Monotone(s.clock, run) && Run(c, s, run).clock <= now && raw in Members(Run(c, s, run), f) ==>
        !Accepts(c, Run(c, s, run), raw, now)
  }

  /** No member would be accepted at the clock. */
  ghost predicate Refusing(c: Config, s: Store, f: nat) {
    forall t | t in Members(s, f) :: !Accepts(c, s, t, s.clock)
  }

  /** Time does not make a stored token acceptable. */
  lemma {:induction false} RefusedLater(c: Config, s: Store, t: nat, now: Time)
    requires t in s.rows && !Accepts(c, s, t, s.clock) && s.clock <= now
    ensures !Accepts(c, s, t, now)
  {
  }

  /** Nor does any request. */
  lemma {:induction false} StepKeepsRefused(c: Config, s: Store, e: Timed, t: nat)
    requires Inv(c, s) && s.clock <= e.now && t in s.rows && t in Step(c, s, e).rows
    requires !Accepts(c, s, t, s.clock)
    ensures !Accepts(c, Step(c, s, e), t, e.now)
  {
    assert RowOk(s, t);
    RefusedLater(c, s, t, e.now);
    if e.event.Refresh? { RefreshKeepsRefused(c, s, e.event.raw, e.now, t); }
  }

  lemma {:induction false} RefreshKeepsRefused(c: Config, s: Store, raw: nat, now: Time, t: nat)
    requires Inv(c, s) && s.clock <= now && t in s.rows && !Accepts(c, s, t, now)
    ensures t in RefreshStep(c, s, raw, now).0.rows && !Accepts(c, RefreshStep(c, s, raw, now).0, t, now)
  {
    assert RowOk(s, t);
  }

  lemma {:induction false} RefusingGainsNoMember(c: Config, s: Store, e: Timed, f: nat, t: nat)
    requires Inv(c, s) && s.clock <= e.now && f < s.nextFamily && Refusing(c, s, f)
    requires t in Members(Step(c, s, e), f)
    ensures t in Members(s, f)
  {
    if e.event.Refresh? && e.event.raw in Members(s, f) { RefusedLater(c, s, e.event.raw, e.now); }
  }

  lemma {:induction false} RefusingStep(c: Config, s: Store, e: Timed, f: nat)
    requires Inv(c, s) && s.clock <= e.now && f < s.nextFamily && Refusing(c, s, f)
    ensures var s' := Step(c, s, e);
      f < s'.nextFamily && s'.clock == e.now && Members(s', f) <= Members(s, f) && Refusing(c, s', f)
  {
    var s' := Step(c, s, e);
    forall t | t in Members(s', f) ensures t in Members(s, f) && !Accepts(c, s', t, s'.clock) {
      RefusingGainsNoMember(c, s, e, f, t);
      StepKeepsRefused(c, s, e, t);
    }
  }

  lemma {:induction false} RefusingForever(c: Config, s: Store, run: seq<Timed>, f: nat)
    requires Inv(c, s) && Monotone(s.clock, run) && f < s.nextFamily && Refusing(c, s, f)
    ensures Refusing(c, Run(c, s, run), f)
    decreases |run|
  {
    if run != [] {
      StepKeepsInv(c, s, run[0]);
      RefusingStep(c, s, run[0], f);
      RefusingForever(c, Step(c, s, run[0]), run[1..], f);
    }
  }

  /** A family is dead for good exactly when none of its members would be accepted now:
      neither a live token nor one within its grace window. */
  lemma {:induction false} DeadForeverIffRefusing(c: Config, s: Store, f: nat)
    requires Inv(c, s) && f < s.nextFamily
    ensures DeadForever(c, s, f) <==> Refusing(c, s, f)
  {
    if Refusing(c, s, f) {
      forall run: seq<Timed>, raw: nat, now: Time
        | Monotone(s.clock, run) && Run(c, s, run).clock <= now && raw in Members(Run(c, s, run), f)
        ensures !Accepts(c, Run(c, s, run), raw, now)
      {
        RefusingForever(c, s, run, f);
        RefusedLater(c, Run(c, s, run), raw, now);
      }
    } else {
      var t :| t in Members(s, f) && Accepts(c, s, t, s.clock);
      assert Run(c, s, []) == s && Accepts(c, Run(c, s, []), t, s.clock);
      assert !DeadForever(c, s, f);
    }
  }

  /** A fully revoked family is dead for good exactly when none of its members was rotated
      within the grace window of the clock with its JWT still unexpired. */
  lemma {:induction false} DeadForeverIffExtinct(c: Config, s: Store, f: nat)
    requires Inv(c, s) && f < s.nextFamily && AllRevoked(s, f)
    ensures DeadForever(c, s, f) <==> Extinct(c, s, f)
  {
    DeadForeverIffRefusing(c, s, f);
    forall t | t in Members(s, f) ensures Accepts(c, s, t, s.clock) <==> Forkable(c, s, t) {
      assert RowOk(s, t);
    }
  }

  /** A detected reuse, or a revoke-all of its owner, kills a family for good exactly when
      no member was rotated in the preceding grace window. */
  lemma {:induction false} KillIsFinalIffQuiet(c: Config, s: Store, e: Timed, f: nat)
    requires Inv(c, s) && s.clock <= e.now && Members(s, f) != {}
    requires
      || (e.event.Refresh? && e.event.raw in Members(s, f) && RefreshStep(c, s, e.event.raw, e.now).1 == ReuseDetected)
      || (e.event.RevokeAll? && forall t | t in Members(s, f) :: s.rows[t].user == e.event.user)
    ensures AllRevoked(Step(c, s, e), f)
    ensures DeadForever(c, Step(c, s, e), f) <==>
            forall t | t in Members(s, f) :: !(WithinGrace(c, s.rows[t], e.now) && JwtLive(s.rows[t], e.now))
  {
    var s' := Step(c, s, e);
    var some :| some in Members(s, f);
    assert RowOk(s, some);
    StepKeepsInv(c, s, e);
    assert Members(s', f) == Members(s, f);
    forall t | t in Members(s, f)
      ensures t in s'.rows && s'.rows[t].revoked
      ensures Forkable(c, s', t) <==> WithinGrace(c, s.rows[t], e.now) && JwtLive(s.rows[t], e.now)
    {
      assert t in s.rows && s'.rows[t] == s.rows[t].(revoked := true) && s'.clock == e.now;
    }
    DeadForeverIffExtinct(c, s', f);
  }

  lemma {:induction false} RunSnoc(c: Config, s: Store, run: seq<Timed>, e: Timed)
    ensures Run(c, s, run + [e]) == Step(c, Run(c, s, run), e)
    decreases |run|
  {
    if run == [] {
      assert Run(c, s, [e]) == Run(c, Step(c, s, e), [e][1..]);
    } else {
      assert (run + [e])[1..] == run[1..] + [e];
      RunSnoc(c, Step(c, s, run[0]), run[1..], e);
    }
  }

  // The states of that run: one login, then two rotations 100 seconds apart.

  const SCENARIO: Config := Config(60 * SECOND, 7 * DAY)

  function ScenarioRow(revoked: bool, at: Time, lastUsed: Option<Time>): Row {
    Row(0, 0, revoked, at, at + SCENARIO.lifetime, lastUsed, Session("", "", map[]))
  }

  const LOGGED_IN: Store := Store(map[0 := ScenarioRow(false, 0, None)], map[0 := Origin.LoggedIn], {0}, 1, 1, 0)

  const ROTATED_ONCE: Store := Store(
    map[0 := ScenarioRow(true, 0, Some(0)), 1 := ScenarioRow(false, 0, None)],
    map[0 := Origin.LoggedIn, 1 := Successor(0)], {0}, 2, 1, 0)

  const ROTATED_TWICE: Store := Store(
    map[0 := ScenarioRow(true, 0, Some(0)), 1 := ScenarioRow(true, 0, Some(100 * SECOND)),
        2 := ScenarioRow(false, 100 * SECOND, None)],
    map[0 := Origin.LoggedIn, 1 := Successor(0), 2 := Successor(1)], {0}, 3, 1, 100 * SECOND)

  lemma {:induction false} ScenarioLogin()
    ensures var registered := Step(SCENARIO, EMPTY, Timed(Register(0), 0));
      Step(SCENARIO, registered, Timed(Login(0, Session("", "", map[])), 0)) == LOGGED_IN
  {
    var registered := Step(SCENARIO, EMPTY, Timed(Register(0), 0));
    assert registered == EMPTY.(users := {0});
  }

  lemma {:induction false} ScenarioRotation()
    ensures Step(SCENARIO, LOGGED_IN, Timed(Refresh(0), 0)) == ROTATED_ONCE
  {
  }

  lemma {:induction false} ScenarioSecondRotation()
    ensures Step(SCENARIO, ROTATED_ONCE, Timed(Refresh(1), 100 * SECOND)) == ROTATED_TWICE
  {
  }

  lemma {:induction false} FourSteps(c: Config, s: Store, a: Timed, b: Timed, d: Timed, e: Timed)
    ensures Run(c, s, [a, b, d, e]) == Step(c, Step(c, Step(c, Step(c, s, a), b), d), e)
    ensures s.clock <= a.now <= b.now <= d.now <= e.now ==> Monotone(s.clock, [a, b, d, e])
  {
    var s1 := Step(c, s, a);
    var s2 := Step(c, s1, b);
    RunCons(c, s, a, [b, d, e]);
    RunCons(c, s1, b, [d, e]);
    RunCons(c, s2, d, [e]);
    RunCons(c, Step(c, s2, d), e, []);
    assert [a] + [b, d, e] == [a, b, d, e] && [b] + [d, e] == [b, d, e] && [d] + [e] == [d, e] && [e] + [] == [e];
  }

  lemma {:induction false} RunCons(c: Config, s: Store, e: Timed, rest: seq<Timed>)
    ensures Run(c, s, [e] + rest) == Run(c, Step(c, s, e), rest)
    ensures forall from: Time :: Monotone(from, [e] + rest) <==> from <= e.now && Monotone(e.now, rest)
  {
    assert ([e] + rest)[1..] == rest;
  }

  /** The quiet condition is needed: a member rotated just before the kill still forks. */
  lemma {:induction false} KilledFamilyForks() returns (c: Config, run: seq<Timed>, before: Store, kill: Timed)
    ensures run == [Timed(Register(0), 0), Timed(Login(0, Session("", "", map[])), 0), Timed(Refresh(0), 0),
                    Timed(Refresh(1), 100 * SECOND)]
    ensures Monotone(0, run) && before == Run(c, EMPTY, run) && before.clock <= kill.now && kill.event.Refresh?
    ensures RefreshStep(c, before, kill.event.raw, kill.now).1 == ReuseDetected
    ensures AllRevoked(Step(c, before, kill), 0) && Accepts(c, Step(c, before, kill), 1, kill.now + SECOND)
  {
    c, before, kill := SCENARIO, ROTATED_TWICE, Timed(Refresh(0), 101 * SECOND);
    run := [Timed(Register(0), 0), Timed(Login(0, Session("", "", map[])), 0), Timed(Refresh(0), 0),
            Timed(Refresh(1), 100 * SECOND)];
    FourSteps(c, EMPTY, Timed(Register(0), 0), Timed(Login(0, Session("", "", map[])), 0), Timed(Refresh(0), 0),
              Timed(Refresh(1), 100 * SECOND));
    ScenarioLogin();
    ScenarioRotation();
    ScenarioSecondRotation();
    ScenarioKill(kill);
  }

  lemma {:induction false} ScenarioKill(kill: Timed)
    requires kill == Timed(Refresh(0), 101 * SECOND)
    ensures RefreshStep(SCENARIO, ROTATED_TWICE, 0, kill.now).1 == ReuseDetected
    ensures var s := Step(SCENARIO, ROTATED_TWICE, kill);
      AllRevoked(s, 0) && Accepts(SCENARIO, s, 1, kill.now + SECOND)
  {
    assert Members(ROTATED_TWICE, 0) == {0, 1, 2};
    var s := Step(SCENARIO, ROTATED_TWICE, kill);
    assert s.rows[1] == ScenarioRow(true, 0, Some(100 * SECOND)) && s.users == {0};
  }
}
