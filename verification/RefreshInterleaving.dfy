/**
  Concurrent refreshes of one token. A refresh is not atomic: it fetches its row, takes its
  clock reading and decides, writes the rotation, and inserts the successor, and any other
  request may run between those database accesses. Requests are numbered; a schedule says
  whose access comes next.
*/
module RefreshInterleaving {
  import opened Common
  import opened RefreshRotation

  /** The clock readings of one request: signature check, decision, issue of the successor. */
  datatype Readings = Readings(verify: Time, decide: Time, issue: Time)

  datatype Phase =
    | Start
    | Fetched(row: Row)
    | Rotating(row: Row)
    | Creating(row: Row)
    | Killing(family: nat)
    | Refused
    | Done(token: nat)

  datatype Setting = Setting(config: Config, users: set<nat>, raw: nat, plan: map<nat, Readings>)

  datatype World = World(rows: map<nat, Row>, nextToken: nat, procs: map<nat, Phase>)

  function Decide(st: Setting, row: Row, now: Time): Phase {
    if row.revoked && !WithinGrace(st.config, row, now) then Killing(row.family)
    else if !row.revoked && row.expiresAt <= now then Refused
    else if row.user !in st.users then Refused
    else if row.revoked then Creating(row)
    else Rotating(row)
  }

  /** One database access of request `p`. */
  function Access(st: Setting, w: World, p: nat): World
    requires p in st.plan && p in w.procs
  {
    var r := st.plan[p];
    match w.procs[p]
    case Start =>
      var next :=
        if st.raw !in w.rows || !JwtLive(w.rows[st.raw], r.verify) then Refused
        else Fetched(w.rows[st.raw]);
      w.(procs := w.procs[p := next])
    case Fetched(row) => w.(procs := w.procs[p := Decide(st, row, r.decide)])
    case Rotating(row) =>
      var rows :=
        if st.raw !in w.rows then w.rows
        else w.rows[st.raw := w.rows[st.raw].(revoked := true, lastUsed := Some(r.decide))];
      w.(rows := rows, procs := w.procs[p := Creating(row)])
    case Creating(row) =>
      var child := Child(st.config, row, r.issue);
      World(w.rows[w.nextToken := child], w.nextToken + 1, w.procs[p := Done(w.nextToken)])
    case Killing(f) =>
      w.(rows := map t | t in w.rows :: if w.rows[t].family == f then w.rows[t].(revoked := true) else w.rows[t],
         procs := w.procs[p := Refused])
    case Refused => w
    case Done(_) => w
  }

  function Exec(st: Setting, w: World, schedule: seq<nat>): World
    decreases |schedule|
  {
    if schedule == [] then w
    else
      var p := schedule[0];
      Exec(st, if p in st.plan && p in w.procs then Access(st, w, p) else w, schedule[1..])
  }

  /** A live, unexpired token, about to be presented by every request of the plan. */
  ghost predicate Ready(st: Setting, w: World) {
    && st.config.grace >= 0 && st.plan != map[]
    && st.raw in w.rows && !w.rows[st.raw].revoked && w.rows[st.raw].user in st.users
    && (forall t | t in w.rows :: t < w.nextToken)
    && w.procs.Keys == st.plan.Keys && (forall p | p in w.procs :: w.procs[p].Start?)
    && (forall p | p in st.plan ::
          JwtLive(w.rows[st.raw], st.plan[p].verify) && st.plan[p].decide < w.rows[st.raw].expiresAt)
  }

  ghost predicate WithinGraceOfEachOther(st: Setting) {
    forall p, q | p in st.plan && q in st.plan :: st.plan[q].decide - st.plan[p].decide <= st.config.grace
  }

  // ----------------------------------------------------------------- safety of a run

  function Stamps(st: Setting): set<Time> {
    set p | p in st.plan :: st.plan[p].decide
  }

  /** The presented row, untouched or rotated at the reading of one of the requests. */
  ghost predicate Presented(st: Setting, original: Row, row: Row) {
    || row == original
    || (row.lastUsed.Some? && row.lastUsed.value in Stamps(st)
        && row == original.(revoked := true, lastUsed := row.lastUsed))
  }

  function TokensIssued(w: World): set<nat> {
    set p | p in w.procs && w.procs[p].Done? :: w.procs[p].token
  }

  /** No request was refused or set off a family kill, and the family lost no live member. */
  ghost predicate Unharmed(st: Setting, w0: World, w: World) {
    && (forall p | p in w.procs :: !w.procs[p].Refused? && !w.procs[p].Killing?)
    && w0.rows.Keys <= w.rows.Keys
    && (forall t | t in w0.rows && t != st.raw :: w.rows[t] == w0.rows[t])
    && (forall t | t in w.rows && t !in w0.rows :: !w.rows[t].revoked)
  }

  ghost predicate PhaseOk(st: Setting, w0: World, w: World, p: nat)
    requires p in w.procs && st.raw in w0.rows && st.raw in w.rows
  {
    var original := w0.rows[st.raw];
    match w.procs[p]
    case Start => true
    case Fetched(row) => Presented(st, original, row) && (row.revoked ==> w.rows[st.raw].revoked)
    case Rotating(row) => row == original
    case Creating(row) => w.rows[st.raw].revoked && Presented(st, original, row)
    case Done(t) => w.rows[st.raw].revoked && t in w.rows && t !in w0.rows
    case _ => false
  }

  ghost predicate Safe(st: Setting, w0: World, w: World) {
    && w.procs.Keys == st.plan.Keys
    && (forall t | t in w.rows :: t < w.nextToken)
    && Unharmed(st, w0, w)
    && st.raw in w0.rows && Presented(st, w0.rows[st.raw], w.rows[st.raw])
    && (forall p | p in w.procs :: PhaseOk(st, w0, w, p))
    && w.rows.Keys == w0.rows.Keys + TokensIssued(w)
    && (forall t | t in w.rows && t !in w0.rows :: SuccessorOf(w0.rows[st.raw], w.rows[t]))
    && DistinctTokens(w)
  }

  ghost predicate SuccessorOf(original: Row, row: Row) {
    && row.family == original.family && row.user == original.user && row.session == original.session
    && !row.revoked && row.lastUsed.None?
  }

  ghost predicate DistinctTokens(w: World) {
    forall p, q | p in w.procs && q in w.procs && w.procs[p].Done? && w.procs[q].Done? && p != q ::
      w.procs[p].token != w.procs[q].token
  }

  /** What other requests see of an access: rows are never lost, revocation never undone. */
  lemma {:induction false} OthersKeepPhase(st: Setting, w0: World, w: World, w': World, p: nat)
    requires Safe(st, w0, w) && w'.procs.Keys == w.procs.Keys && w.rows.Keys <= w'.rows.Keys
    requires w.rows[st.raw].revoked ==> w'.rows[st.raw].revoked
    requires forall q | q in w.procs && q != p :: w'.procs[q] == w.procs[q]
    requires p in w.procs && PhaseOk(st, w0, w', p)
    ensures forall q | q in w'.procs :: PhaseOk(st, w0, w', q)
  {
    forall q | q in w'.procs ensures PhaseOk(st, w0, w', q) { assert PhaseOk(st, w0, w, q); }
  }

  lemma {:induction false} SameTokens(w: World, w': World, p: nat)
    requires p in w.procs && !w.procs[p].Done? && w'.procs.Keys == w.procs.Keys && !w'.procs[p].Done?
    requires forall q | q in w.procs && q != p :: w'.procs[q] == w.procs[q]
    ensures TokensIssued(w') == TokensIssued(w)
  {
    forall t | t in TokensIssued(w) ensures t in TokensIssued(w') {
      var q :| q in w.procs && w.procs[q].Done? && w.procs[q].token == t;
      assert w'.procs[q].token == t;
    }
  }

  lemma {:induction false} OneMoreToken(w: World, w': World, p: nat)
    requires p in w.procs && !w.procs[p].Done? && w'.procs.Keys == w.procs.Keys && w'.procs[p].Done?
    requires forall q | q in w.procs && q != p :: w'.procs[q] == w.procs[q]
    ensures TokensIssued(w') == TokensIssued(w) + {w'.procs[p].token}
  {
    forall t | t in TokensIssued(w) ensures t in TokensIssued(w') {
      var q :| q in w.procs && w.procs[q].Done? && w.procs[q].token == t;
      assert w'.procs[q].token == t;
    }
  }

  /** An access that only moves `p` on, short of an issue, keeps the world safe. */
  lemma {:induction false} MoveKeepsSafe(st: Setting, w0: World, w: World, p: nat, phase: Phase)
    requires Safe(st, w0, w) && p in w.procs && !w.procs[p].Done?
    requires phase.Fetched? || phase.Rotating? || phase.Creating?
    requires PhaseOk(st, w0, w.(procs := w.procs[p := phase]), p)
    ensures Safe(st, w0, w.(procs := w.procs[p := phase]))
  {
    var w' := w.(procs := w.procs[p := phase]);
    OthersKeepPhase(st, w0, w, w', p);
    SameTokens(w, w', p);
    MoveKeepsDistinct(w, p, phase);
    MoveKeepsUnharmed(st, w0, w, p, phase);
  }

  lemma {:induction false} MoveKeepsUnharmed(st: Setting, w0: World, w: World, p: nat, phase: Phase)
    requires Unharmed(st, w0, w) && !phase.Refused? && !phase.Killing?
    ensures Unharmed(st, w0, w.(procs := w.procs[p := phase]))
  {
  }

  lemma {:induction false} MoveKeepsDistinct(w: World, p: nat, phase: Phase)
    requires DistinctTokens(w) && p in w.procs && !phase.Done?
    ensures DistinctTokens(w.(procs := w.procs[p := phase]))
  {
  }

  lemma {:induction false} ReadKeepsSafe(st: Setting, w0: World, w: World, p: nat)
    requires Ready(st, w0) && Safe(st, w0, w) && p in st.plan && w.procs[p].Start?
    ensures Safe(st, w0, Access(st, w, p))
  {
    assert Access(st, w, p) == w.(procs := w.procs[p := Fetched(w.rows[st.raw])]);
    MoveKeepsSafe(st, w0, w, p, Fetched(w.rows[st.raw]));
  }

  /** The decision is never a refusal or a kill: the row read is live, or was rotated at a
      reading within the grace window. */
  lemma {:induction false} DecisionIsGood(st: Setting, w0: World, w: World, p: nat)
    requires Ready(st, w0) && WithinGraceOfEachOther(st) && Safe(st, w0, w) && p in st.plan && w.procs[p].Fetched?
    ensures var row := w.procs[p].row;
      Decide(st, row, st.plan[p].decide) == if row.revoked then Creating(row) else Rotating(row)
    ensures !w.procs[p].row.revoked ==> w.procs[p].row == w0.rows[st.raw]
  {
    assert PhaseOk(st, w0, w, p);
    var row := w.procs[p].row;
    if row.revoked {
      var q :| q in st.plan && st.plan[q].decide == row.lastUsed.value;
      assert WithinGrace(st.config, row, st.plan[p].decide);
    }
  }

  lemma {:induction false} DecideKeepsSafe(st: Setting, w0: World, w: World, p: nat)
    requires Ready(st, w0) && WithinGraceOfEachOther(st) && Safe(st, w0, w) && p in st.plan && w.procs[p].Fetched?
    ensures Safe(st, w0, Access(st, w, p))
  {
    DecisionIsGood(st, w0, w, p);
    var row := w.procs[p].row;
    MoveKeepsSafe(st, w0, w, p, if row.revoked then Creating(row) else Rotating(row));
  }

  lemma {:induction false} RotateKeepsSafe(st: Setting, w0: World, w: World, p: nat)
    requires Ready(st, w0) && Safe(st, w0, w) && p in st.plan && w.procs[p].Rotating?
    ensures Safe(st, w0, Access(st, w, p))
  {
    var w' := Access(st, w, p);
    assert PhaseOk(st, w0, w, p);
    RotateKeepsRows(st, w0, w, p);
    OthersKeepPhase(st, w0, w, w', p);
    SameTokens(w, w', p);
    MoveKeepsDistinct(w, p, Creating(w0.rows[st.raw]));
  }

  /** Only the presented row is written, with the reading of one of the requests. */
  lemma {:induction false} RotateKeepsRows(st: Setting, w0: World, w: World, p: nat)
    requires Ready(st, w0) && Safe(st, w0, w) && p in st.plan && w.procs[p].Rotating?
    ensures var w' := Access(st, w, p);
      && Unharmed(st, w0, w') && w'.rows.Keys == w.rows.Keys
      && Presented(st, w0.rows[st.raw], w'.rows[st.raw]) && w'.rows[st.raw].revoked
      && w'.procs == w.procs[p := Creating(w0.rows[st.raw])]
      && (forall t | t in w'.rows && t !in w0.rows :: SuccessorOf(w0.rows[st.raw], w'.rows[t]))
  {
    assert PhaseOk(st, w0, w, p) && st.plan[p].decide in Stamps(st);
  }

  lemma {:induction false} CreateKeepsSafe(st: Setting, w0: World, w: World, p: nat)
    requires Ready(st, w0) && Safe(st, w0, w) && p in st.plan && w.procs[p].Creating?
    ensures Safe(st, w0, Access(st, w, p))
  {
    var w' := Access(st, w, p);
    assert PhaseOk(st, w0, w, p);
    OneMoreToken(w, w', p);
    CreateKeepsRows(st, w0, w, p);
    OthersKeepPhase(st, w0, w, w', p);
    CreateKeepsDistinct(st, w0, w, p);
  }

  /** The inserted row is a new, live successor; no other row changes. */
  lemma {:induction false} CreateKeepsRows(st: Setting, w0: World, w: World, p: nat)
    requires Ready(st, w0) && Safe(st, w0, w) && p in st.plan && w.procs[p].Creating?
    ensures var w' := Access(st, w, p);
      && Unharmed(st, w0, w') && w'.rows[st.raw] == w.rows[st.raw] && w.nextToken !in w0.rows
      && w'.rows.Keys == w.rows.Keys + {w.nextToken}
      && (forall t | t in w'.rows && t !in w0.rows :: SuccessorOf(w0.rows[st.raw], w'.rows[t]))
  {
    assert PhaseOk(st, w0, w, p);
    assert st.raw < w.nextToken && w.nextToken !in w.rows;
  }

  lemma {:induction false} CreateKeepsDistinct(st: Setting, w0: World, w: World, p: nat)
    requires Safe(st, w0, w) && p in st.plan && w.procs[p].Creating?
    ensures DistinctTokens(w.(procs := w.procs[p := Done(w.nextToken)]))
  {
    forall q | q in w.procs && w.procs[q].Done? ensures w.procs[q].token in w.rows {
      assert PhaseOk(st, w0, w, q);
    }
  }

  lemma {:induction false} AccessKeepsSafe(st: Setting, w0: World, w: World, p: nat)
    requires Ready(st, w0) && WithinGraceOfEachOther(st) && Safe(st, w0, w) && p in st.plan
    ensures Safe(st, w0, Access(st, w, p))
  {
    assert PhaseOk(st, w0, w, p);
    match w.procs[p]
    case Start => ReadKeepsSafe(st, w0, w, p);
    case Fetched(_) => DecideKeepsSafe(st, w0, w, p);
    case Rotating(_) => RotateKeepsSafe(st, w0, w, p);
    case Creating(_) => CreateKeepsSafe(st, w0, w, p);
    case Done(_) =>
  }

  lemma {:induction false} ExecKeepsSafe(st: Setting, w0: World, w: World, schedule: seq<nat>)
    requires Ready(st, w0) && WithinGraceOfEachOther(st) && Safe(st, w0, w)
    ensures Safe(st, w0, Exec(st, w, schedule))
    decreases |schedule|
  {
    if schedule != [] {
      var p := schedule[0];
      if p in st.plan {
        AccessKeepsSafe(st, w0, w, p);
        ExecKeepsSafe(st, w0, Access(st, w, p), schedule[1..]);
      } else {
        ExecKeepsSafe(st, w0, w, schedule[1..]);
      }
    }
  }

  lemma {:induction false} ReadyIsSafe(st: Setting, w: World)
    requires Ready(st, w)
    ensures Safe(st, w, w)
  {
    assert TokensIssued(w) == {};
  }

  /** The race the grace window exists for: every interleaving of the requests is unharmed
      exactly when their readings lie within the grace window of each other. */
  lemma {:induction false} UnharmedIffWithinGrace(st: Setting, w: World)
    requires Ready(st, w)
    ensures (forall schedule :: Unharmed(st, w, Exec(st, w, schedule))) <==> WithinGraceOfEachOther(st)
  {
    ReadyIsSafe(st, w);
    if WithinGraceOfEachOther(st) {
      forall schedule ensures Unharmed(st, w, Exec(st, w, schedule)) {
        ExecKeepsSafe(st, w, w, schedule);
      }
    } else {
      var p, q :| p in st.plan && q in st.plan && st.plan[q].decide - st.plan[p].decide > st.config.grace;
      LateReuseKills(st, w, p, q);
    }
  }

  /** Run alone to its end, a request rotates the presented token at its reading. */
  lemma {:induction false} AloneRotates(st: Setting, w: World, p: nat)
    requires Ready(st, w) && p in st.plan
    ensures var w' := Exec(st, w, [p, p, p, p]);
      && w'.procs == w.procs[p := Done(w.nextToken)]
      && st.raw in w'.rows
      && w'.rows[st.raw] == w.rows[st.raw].(revoked := true, lastUsed := Some(st.plan[p].decide))
  {
    FourTurns(st, w, p);
    var row := w.rows[st.raw];
    var w1 := Access(st, w, p);
    assert w1.procs[p] == Fetched(row);
    var w2 := Access(st, w1, p);
    assert w2.procs[p] == Rotating(row) && w2.rows == w.rows;
    var w3 := Access(st, w2, p);
    assert w3.procs[p] == Creating(row) && w3.nextToken == w.nextToken && st.raw < w.nextToken;
  }

  /** A request that reads and decides on a rotated token past its window turns to the kill. */
  lemma {:induction false} LateDecision(st: Setting, w: World, q: nat)
    requires q in st.plan && q in w.procs && w.procs[q].Start? && st.raw in w.rows
    requires JwtLive(w.rows[st.raw], st.plan[q].verify)
    requires w.rows[st.raw].revoked && !WithinGrace(st.config, w.rows[st.raw], st.plan[q].decide)
    ensures Exec(st, w, [q, q]) == w.(procs := w.procs[q := Killing(w.rows[st.raw].family)])
  {
    var w1 := Access(st, w, q);
    ExecCons(st, w, q, [q]);
    ExecCons(st, w1, q, []);
    assert [q] + [q] == [q, q] && [q] + [] == [q];
  }

  /** If `q` decides more than the window after `p`, running `p` first sets off the kill:
      `q` is about to revoke the family, and its next access leaves no member live. */
  lemma {:induction false} LateReuseKills(st: Setting, w: World, p: nat, q: nat)
    requires Ready(st, w) && p in st.plan && q in st.plan
    requires st.plan[q].decide - st.plan[p].decide > st.config.grace
    ensures var w', f := Exec(st, w, [p, p, p, p] + [q, q]), w.rows[st.raw].family;
      && !Unharmed(st, w, w')
      && q in w'.procs && w'.procs[q] == Killing(f)
      && (var rows := Access(st, w', q).rows; forall t | t in rows && rows[t].family == f :: rows[t].revoked)
  {
    AloneRotates(st, w, p);
    LateDecision(st, Exec(st, w, [p, p, p, p]), q);
    ExecConcat(st, w, [p, p, p, p], [q, q]);
  }

  lemma {:induction false} ExecConcat(st: Setting, w: World, a: seq<nat>, b: seq<nat>)
    ensures Exec(st, w, a + b) == Exec(st, Exec(st, w, a), b)
    decreases |a|
  {
    if a == [] {
      assert a + b == b;
    } else {
      assert (a + b)[1..] == a[1..] + b;
      var p := a[0];
      ExecConcat(st, if p in st.plan && p in w.procs then Access(st, w, p) else w, a[1..], b);
    }
  }

  lemma {:induction false} FourTurns(st: Setting, w: World, p: nat)
    requires p in st.plan && p in w.procs
    ensures Exec(st, w, [p, p, p, p]) == Access(st, Access(st, Access(st, Access(st, w, p), p), p), p)
  {
    var w1 := Access(st, w, p);
    var w2 := Access(st, w1, p);
    var w3 := Access(st, w2, p);
    ExecCons(st, w, p, [p, p, p]);
    ExecCons(st, w1, p, [p, p]);
    ExecCons(st, w2, p, [p]);
    ExecCons(st, w3, p, []);
    assert [p] + [p, p, p] == [p, p, p, p] && [p] + [p, p] == [p, p, p] && [p] + [p] == [p, p] && [p] + [] == [p];
  }

  lemma {:induction false} ExecCons(st: Setting, w: World, p: nat, rest: seq<nat>)
    requires p in st.plan && p in w.procs
    ensures Exec(st, w, [p] + rest) == Exec(st, Access(st, w, p), rest)
  {
    assert ([p] + rest)[1..] == rest;
  }

  // --------------------------------------------------------------------- completion

  function Turns(schedule: seq<nat>, p: nat): nat {
    if schedule == [] then 0 else (if schedule[0] == p then 1 else 0) + Turns(schedule[1..], p)
  }

  function AccessesLeft(phase: Phase): nat {
    match phase
    case Start => 4
    case Fetched(_) => 3
    case Rotating(_) => 2
    case Creating(_) => 1
    case Killing(_) => 1
    case _ => 0
  }

  lemma {:induction false} TurnsAdvance(st: Setting, w: World, schedule: seq<nat>, p: nat)
    requires w.procs.Keys == st.plan.Keys && p in st.plan
    ensures Exec(st, w, schedule).procs.Keys == st.plan.Keys
    ensures AccessesLeft(Exec(st, w, schedule).procs[p]) == 0
            || AccessesLeft(Exec(st, w, schedule).procs[p]) + Turns(schedule, p) <= AccessesLeft(w.procs[p])
    decreases |schedule|
  {
    if schedule != [] {
      var q := schedule[0];
      TurnsAdvance(st, if q in st.plan then Access(st, w, q) else w, schedule[1..], p);
    }
  }

  /** Requests within the grace window of each other, each given its four accesses in any
      interleaving: each obtains a successor of its own, in the family, live; the presented
      token ends up revoked and stamped with one of the readings; nothing else changes. */
  lemma {:induction false} ConcurrentRefreshesAllSucceed(st: Setting, w: World, schedule: seq<nat>)
    requires Ready(st, w) && WithinGraceOfEachOther(st)
    requires forall p | p in st.plan :: Turns(schedule, p) >= 4
    ensures var w' := Exec(st, w, schedule);
      && (forall p | p in st.plan ::
            p in w'.procs && w'.procs[p].Done? && w'.procs[p].token in w'.rows.Keys - w.rows.Keys)
      && DistinctTokens(w')
      && w'.rows.Keys == w.rows.Keys + TokensIssued(w')
      && (forall t | t in w'.rows && t !in w.rows :: SuccessorOf(w.rows[st.raw], w'.rows[t]))
      && w'.rows[st.raw].revoked && w'.rows[st.raw].lastUsed.Some? && w'.rows[st.raw].lastUsed.value in Stamps(st)
      && (forall t | t in w.rows && t != st.raw :: w'.rows[t] == w.rows[t])
  {
    ReadyIsSafe(st, w);
    ExecKeepsSafe(st, w, w, schedule);
    var w' := Exec(st, w, schedule);
    forall p | p in st.plan
      ensures p in w'.procs && w'.procs[p].Done? && w'.procs[p].token in w'.rows && w'.procs[p].token !in w.rows
    {
      TurnsAdvance(st, w, schedule, p);
      AllTurnsTaken(st, w, w', p);
    }
    SafeRows(st, w, w');
    var p :| p in st.plan;
    RotatedByOne(st, w, w', p);
  }

  lemma {:induction false} SafeRows(st: Setting, w0: World, w: World)
    requires Safe(st, w0, w)
    ensures DistinctTokens(w) && w.rows.Keys == w0.rows.Keys + TokensIssued(w)
    ensures forall t | t in w.rows && t !in w0.rows :: SuccessorOf(w0.rows[st.raw], w.rows[t])
    ensures forall t | t in w0.rows && t != st.raw :: w.rows[t] == w0.rows[t]
  {
  }

  lemma {:induction false} AllTurnsTaken(st: Setting, w0: World, w: World, p: nat)
    requires Safe(st, w0, w) && p in st.plan && AccessesLeft(w.procs[p]) == 0
    ensures w.procs[p].Done? && w.procs[p].token in w.rows && w.procs[p].token !in w0.rows
  {
    assert PhaseOk(st, w0, w, p);
  }

  lemma {:induction false} RotatedByOne(st: Setting, w0: World, w: World, p: nat)
    requires Ready(st, w0) && Safe(st, w0, w) && p in st.plan && w.procs[p].Done?
    ensures var row := w.rows[st.raw]; row.revoked && row.lastUsed.Some? && row.lastUsed.value in Stamps(st)
  {
    assert PhaseOk(st, w0, w, p);
  }

  // ------------------------------------------------------------- the atomic protocol

  /** One request alone, with one clock reading. */
  function Alone(c: Config, s: Store, raw: nat, now: Time): Setting {
    Setting(c, s.users, raw, map[0 := Readings(now, now, now)])
  }

  /** The last two accesses, after the request has decided. */
  lemma {:induction false} DecidedIsAtomic(c: Config, s: Store, raw: nat, now: Time, procs: map<nat, Phase>)
    requires 0 in procs && raw in s.rows && JwtLive(s.rows[raw], now)
    requires procs[0] == Decide(Alone(c, s, raw, now), s.rows[raw], now)
    ensures var st := Alone(c, s, raw, now);
      var w := Access(st, Access(st, World(s.rows, s.nextToken, procs), 0), 0);
      var (s', out) := RefreshStep(c, s, raw, now);
      && w.rows == s'.rows && w.nextToken == s'.nextToken
      && 0 in w.procs && w.procs[0] == if out.Issued? then Done(out.token) else Refused
  {
    var st := Alone(c, s, raw, now);
    var w3 := Access(st, World(s.rows, s.nextToken, procs), 0);
    if procs[0].Killing? { assert w3.rows == RefreshStep(c, s, raw, now).0.rows; }
  }

  /** Uninterrupted and with one clock reading, the accesses are the atomic step. */
  lemma {:induction false} UninterruptedIsAtomic(c: Config, s: Store, raw: nat, now: Time)
    ensures var w := Exec(Alone(c, s, raw, now), World(s.rows, s.nextToken, map[0 := Start]), [0, 0, 0, 0]);
      var (s', out) := RefreshStep(c, s, raw, now);
      && w.rows == s'.rows && w.nextToken == s'.nextToken
      && 0 in w.procs && w.procs[0] == if out.Issued? then Done(out.token) else Refused
  {
    var st := Alone(c, s, raw, now);
    var w0 := World(s.rows, s.nextToken, map[0 := Start]);
    var w2 := Access(st, Access(st, w0, 0), 0);
    FourTurns(st, w0, 0);
    if raw in s.rows && JwtLive(s.rows[raw], now) { DecidedIsAtomic(c, s, raw, now, w2.procs); }
  }
}
