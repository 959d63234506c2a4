/**
  A revoke-all that falls between the database accesses of concurrent refreshes. It revokes
  every stored token of the user at once, but a refresh that has already read its row keeps
  the copy it holds and may still insert a live successor.
*/
module RevokeInterleaving {
  import opened Common
  import opened RefreshRotation
  import opened RefreshInterleaving

  function RevokeUser(w: World, user: nat): World {
    w.(rows := map t | t in w.rows ::
      if w.rows[t].user == user then w.rows[t].(revoked := true) else w.rows[t])
  }

  /** The user has no live token. */
  ghost predicate SignedOut(w: World, user: nat) {
    forall t | t in w.rows && w.rows[t].user == user :: w.rows[t].revoked
  }

  /** The copy of the presented row that a request works on. */
  function Copy(phase: Phase): Option<Row> {
    match phase
    case Fetched(row) => Some(row)
    case Rotating(row) => Some(row)
    case Creating(row) => Some(row)
    case _ => None
  }

  /** The presented row and all copies of it belong to the user. */
  ghost predicate Owned(st: Setting, user: nat, w: World) {
    && w.procs.Keys == st.plan.Keys
    && (forall t | t in w.rows :: t < w.nextToken)
    && (st.raw in w.rows ==> w.rows[st.raw].user == user)
    && (forall p | p in w.procs && Copy(w.procs[p]).Some? :: Copy(w.procs[p]).value.user == user)
  }

  /** A request decides, on this row, to go on and issue a successor. */
  predicate Issues(st: Setting, p: nat, row: Row)
    requires p in st.plan
  {
    Decide(st, row, st.plan[p].decide).Rotating? || Decide(st, row, st.plan[p].decide).Creating?
  }

  /** Left to run now, the request issues a successor. */
  predicate WillIssue(st: Setting, w: World, p: nat)
    requires p in st.plan && p in w.procs
  {
    match w.procs[p]
    case Start => st.raw in w.rows && JwtLive(w.rows[st.raw], st.plan[p].verify) && Issues(st, p, w.rows[st.raw])
    case Fetched(row) => Issues(st, p, row)
    case Rotating(_) => true
    case Creating(_) => true
    case _ => false
  }

  ghost predicate Quiet(st: Setting, w: World)
    requires w.procs.Keys == st.plan.Keys
  {
    forall p | p in st.plan :: !WillIssue(st, w, p)
  }

  // -------------------------------------------------------------------- whose rows

  lemma {:induction false} AccessKeepsOwned(st: Setting, user: nat, w: World, p: nat)
    requires Owned(st, user, w) && p in st.plan
    ensures Owned(st, user, Access(st, w, p))
  {
    var w' := Access(st, w, p);
    forall q | q in w'.procs && Copy(w'.procs[q]).Some? ensures Copy(w'.procs[q]).value.user == user {
      if q != p { assert w'.procs[q] == w.procs[q]; }
    }
  }

  lemma {:induction false} ExecKeepsOwned(st: Setting, user: nat, w: World, schedule: seq<nat>)
    requires Owned(st, user, w)
    ensures Owned(st, user, Exec(st, w, schedule))
    decreases |schedule|
  {
    if schedule != [] {
      var p := schedule[0];
      if p in st.plan {
        AccessKeepsOwned(st, user, w, p);
        ExecKeepsOwned(st, user, Access(st, w, p), schedule[1..]);
      } else {
        ExecKeepsOwned(st, user, w, schedule[1..]);
      }
    }
  }

  lemma {:induction false} RevokeKeepsOwned(st: Setting, user: nat, w: World)
    requires Owned(st, user, w)
    ensures Owned(st, user, RevokeUser(w, user)) && SignedOut(RevokeUser(w, user), user)
  {
  }

  // ------------------------------------------------------------------ when it is final

  /** With nobody about to issue, an access revokes nothing back and makes nobody issue. */
  lemma {:induction false} QuietAccess(st: Setting, user: nat, w: World, p: nat)
    requires Owned(st, user, w) && SignedOut(w, user) && Quiet(st, w) && p in st.plan
    ensures var w' := Access(st, w, p); Owned(st, user, w') && SignedOut(w', user) && Quiet(st, w')
  {
    var w' := Access(st, w, p);
    AccessKeepsOwned(st, user, w, p);
    QuietKeepsRows(st, user, w, p);
    forall q | q in st.plan ensures !WillIssue(st, w', q) {
      assert !WillIssue(st, w, q) && !WillIssue(st, w, p);
    }
  }

  lemma {:induction false} QuietKeepsRows(st: Setting, user: nat, w: World, p: nat)
    requires Owned(st, user, w) && SignedOut(w, user) && Quiet(st, w) && p in st.plan
    ensures var w' := Access(st, w, p);
      && w'.rows.Keys == w.rows.Keys && SignedOut(w', user)
      && (st.raw in w.rows ==> w'.rows[st.raw] == w.rows[st.raw])
  {
    assert !WillIssue(st, w, p);
  }

  lemma {:induction false} QuietExec(st: Setting, user: nat, w: World, schedule: seq<nat>)
    requires Owned(st, user, w) && SignedOut(w, user) && Quiet(st, w)
    ensures SignedOut(Exec(st, w, schedule), user)
    decreases |schedule|
  {
    if schedule != [] {
      var p := schedule[0];
      if p in st.plan {
        QuietAccess(st, user, w, p);
        QuietExec(st, user, Access(st, w, p), schedule[1..]);
      } else {
        QuietExec(st, user, w, schedule[1..]);
      }
    }
  }

  /** The request has inserted a live token of the user. */
  ghost predicate Landed(w: World, user: nat, p: nat) {
    && p in w.procs && w.procs[p].Done? && w.procs[p].token in w.rows
    && w.rows[w.procs[p].token].user == user && !w.rows[w.procs[p].token].revoked
  }

  /** How many accesses the request still needs before its successor is stored. */
  function StepsToLand(phase: Phase): nat {
    match phase
    case Start => 4
    case Fetched(_) => 3
    case Rotating(_) => 2
    case _ => 1
  }

  lemma {:induction false} IssuerAdvances(st: Setting, user: nat, w: World, p: nat)
    requires Owned(st, user, w) && p in st.plan && WillIssue(st, w, p)
    ensures var w' := Access(st, w, p);
      && Owned(st, user, w')
      && (Landed(w', user, p) || (WillIssue(st, w', p) && StepsToLand(w'.procs[p]) < StepsToLand(w.procs[p])))
  {
    AccessKeepsOwned(st, user, w, p);
  }

  /** A request about to issue, run alone, lands. */
  lemma {:induction false} IssuerLands(st: Setting, user: nat, w: World, p: nat) returns (schedule: seq<nat>)
    requires Owned(st, user, w) && p in st.plan && WillIssue(st, w, p)
    ensures Landed(Exec(st, w, schedule), user, p)
    decreases StepsToLand(w.procs[p])
  {
    IssuerAdvances(st, user, w, p);
    var w' := Access(st, w, p);
    var rest: seq<nat> := [];
    if Landed(w', user, p) {
      assert Exec(st, w', rest) == w';
    } else {
      rest := IssuerLands(st, user, w', p);
    }
    schedule := [p] + rest;
    ExecCons(st, w, p, rest);
  }

  /** A revoke-all between the accesses is final, whatever the rest of the interleaving,
      exactly when no refresh is about to issue at that moment. */
  lemma {:induction false} RevokeAllIsFinalIff(st: Setting, user: nat, w: World)
    requires Owned(st, user, w)
    ensures var w' := RevokeUser(w, user);
      (forall schedule :: SignedOut(Exec(st, w', schedule), user)) <==> forall p | p in st.plan :: !WillIssue(st, w', p)
  {
    var w' := RevokeUser(w, user);
    RevokeKeepsOwned(st, user, w);
    if Quiet(st, w') {
      forall schedule ensures SignedOut(Exec(st, w', schedule), user) { QuietExec(st, user, w', schedule); }
    } else {
      var p :| p in st.plan && WillIssue(st, w', p);
      var schedule := IssuerLands(st, user, w', p);
      assert !SignedOut(Exec(st, w', schedule), user);
    }
  }

  /** The same at any point of any interleaving of refreshes of a live token. */
  lemma {:induction false} RevokeDuringRefreshesIff(st: Setting, w: World, before: seq<nat>)
    requires Ready(st, w)
    ensures var user := w.rows[st.raw].user;
      var w' := RevokeUser(Exec(st, w, before), user);
      && w'.procs.Keys == st.plan.Keys
      && ((forall schedule :: SignedOut(Exec(st, w', schedule), user)) <==> Quiet(st, w'))
  {
    var user := w.rows[st.raw].user;
    ExecKeepsOwned(st, user, w, before);
    RevokeAllIsFinalIff(st, user, Exec(st, w, before));
  }

  /** With no refresh between its accesses: final exactly when the token, now revoked, is
      not within its grace window for any refresh that has not begun. */
  lemma {:induction false} RevokeAtRestIsFinalIff(st: Setting, user: nat, w: World)
    requires Owned(st, user, w) && st.raw in w.rows && user in st.users
    requires forall p | p in w.procs :: w.procs[p].Start? || w.procs[p].Done? || w.procs[p].Refused?
    ensures var final := forall schedule :: SignedOut(Exec(st, RevokeUser(w, user), schedule), user);
      var row := w.rows[st.raw];
      var lapsed := forall p | p in st.plan && w.procs[p].Start? ::
        !(JwtLive(row, st.plan[p].verify) && WithinGrace(st.config, row, st.plan[p].decide));
      final <==> lapsed
  {
    RevokeAllIsFinalIff(st, user, w);
    var w' := RevokeUser(w, user);
    assert w'.rows[st.raw] == w.rows[st.raw].(revoked := true);
    var row := w.rows[st.raw];
    forall p | p in st.plan
      ensures WillIssue(st, w', p) <==>
        (w.procs[p].Start? && JwtLive(row, st.plan[p].verify) && WithinGrace(st.config, row, st.plan[p].decide))
    {
    }
  }

  /** A refresh that read the token live before the revoke-all still gets a live successor. */
  lemma {:induction false} RefreshSurvivesRevokeAll(st: Setting, w: World, p: nat)
    requires Ready(st, w) && p in st.plan
    ensures var user := w.rows[st.raw].user;
      exists schedule :: !SignedOut(Exec(st, RevokeUser(Exec(st, w, [p]), user), schedule), user)
  {
    var user := w.rows[st.raw].user;
    ExecCons(st, w, p, []);
    assert [p] + [] == [p];
    ExecKeepsOwned(st, user, w, [p]);
    RevokeAllIsFinalIff(st, user, Exec(st, w, [p]));
    assert WillIssue(st, RevokeUser(Exec(st, w, [p]), user), p);
  }
}
