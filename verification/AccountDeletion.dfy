/**
  Account deletion with a seven-day grace period and a one-shot cancel link.

  Each view request is one atomic step. The purge is not: it reads its list of due requests
  once and then deletes account after account without looking at a status again, and other
  steps may come between. Purges do not overlap one another here; PurgeOverlap lets them.
*/
module AccountDeletion {
  import opened Common

  datatype Status = Pending | Canceled | Completed | Failed

  /** `user` is absent once the account is gone. */
  datatype Deletion = Deletion(
    user: Option<nat>, status: Status, requestedAt: Time, scheduledFor: Time, jti: string,
    canceledAt: Option<Time>, completedAt: Option<Time>)

  datatype CancelToken = CancelToken(id: nat, jti: string, expiry: Time)

  /** `active` has one entry per account; `issued` are the cancel tokens signed so far;
      `batch` is what a purge under way has still to do. */
  datatype World = World(active: map<nat, bool>, requests: seq<Deletion>, issued: set<CancelToken>, batch: seq<nat>)

  datatype Event =
    | Register(user: nat)
    | SetActive(user: nat, active: bool)
    | Request(user: nat, confirmed: bool, jti: string)
    | Cancel(token: CancelToken)
    | StartPurge
    | PurgeNext(succeeds: bool)

  datatype Timed = Timed(event: Event, now: Time)

  const GRACE: Time := 7 * DAY

  // ------------------------------------------------------------------ cancel tokens

  function CreateCancelToken(requests: seq<Deletion>, id: nat): CancelToken
    requires id < |requests|
  {
    CancelToken(id, requests[id].jti, FloorSecond(requests[id].scheduledFor))
  }

  /** A signed token is accepted before its expiry (section 4.1.4 of RFC 7519). */
  function VerifyCancelToken(issued: set<CancelToken>, token: CancelToken, now: Time): Option<(nat, string)> {
    if token !in issued || token.expiry <= now || token.jti == "" then None
    else Some((token.id, token.jti))
  }

  predicate Cancellable(w: World, token: CancelToken, now: Time) {
    match VerifyCancelToken(w.issued, token, now)
    case None => false
    case Some((id, jti)) => id < |w.requests| && w.requests[id].jti == jti && w.requests[id].status == Pending
  }

  // --------------------------------------------------------------------------- steps

  predicate Due(r: Deletion, now: Time) {
    r.status == Pending && r.scheduledFor <= now && r.user.Some?
  }

  /** The due requests among the first n, newest first. */
  function DueIds(requests: seq<Deletion>, now: Time, n: nat): (r: seq<nat>)
    requires n <= |requests|
    ensures forall i | i in r :: i < n && Due(requests[i], now)
    ensures forall i: nat | i < n && Due(requests[i], now) :: i in r
    ensures forall i, j | 0 <= i < j < |r| :: r[i] != r[j]
  {
    if n == 0 then []
    else if Due(requests[n - 1], now) then [n - 1] + DueIds(requests, now, n - 1)
    else DueIds(requests, now, n - 1)
  }

  predicate HasPending(requests: seq<Deletion>, user: nat) {
    exists r | r in requests :: r.user == Some(user) && r.status == Pending
  }

  /** The rows of a deleted account stay, without their user. */
  function Orphan(requests: seq<Deletion>, user: nat): (r: seq<Deletion>)
    ensures |r| == |requests|
    ensures forall i | 0 <= i < |r| ::
      r[i] == if requests[i].user == Some(user) then requests[i].(user := None) else requests[i]
  {
    seq(|requests|, i requires 0 <= i < |requests| =>
      if requests[i].user == Some(user) then requests[i].(user := None) else requests[i])
  }

  function RequestStep(w: World, user: nat, jti: string, now: Time): World {
    var r := Deletion(Some(user), Pending, now, now + GRACE, jti, None, None);
    var requests := w.requests + [r];
    w.(requests := requests, active := w.active[user := false],
       issued := w.issued + {CreateCancelToken(requests, |w.requests|)})
  }

  function CancelStep(w: World, id: nat, now: Time): World
    requires id < |w.requests|
  {
    var r := w.requests[id];
    w.(requests := w.requests[id := r.(status := Canceled, canceledAt := Some(now))],
       active := if r.user.Some? && r.user.value in w.active then w.active[r.user.value := true] else w.active)
  }

  /** A request once its account is deleted. */
  function Settled(r: Deletion, now: Time): Deletion {
    r.(user := None, status := Completed, completedAt := Some(now))
  }

  /** No status is looked at: the list was read when the purge started. */
  function PurgeStep(w: World, succeeds: bool, now: Time): World
    requires w.batch != [] && w.batch[0] < |w.requests|
  {
    var id := w.batch[0];
    var r := w.requests[id];
    var next := w.(batch := w.batch[1..]);
    if r.user.None? then next
    else if succeeds then
      next.(active := w.active - {r.user.value},
            requests := Orphan(w.requests, r.user.value)[id := Settled(r, now)])
    else next.(requests := w.requests[id := r.(status := Failed)])
  }

  function Step(w: World, t: Timed): World {
    match t.event
    case Register(u) => if u in w.active then w else w.(active := w.active[u := true])
    case SetActive(u, active) => if u in w.active then w.(active := w.active[u := active]) else w
    case Request(u, confirmed, jti) =>
      if u !in w.active || !w.active[u] || !confirmed || HasPending(w.requests, u) then w
      else RequestStep(w, u, jti, t.now)
    case Cancel(token) => if Cancellable(w, token, t.now) then CancelStep(w, token.id, t.now) else w
    case StartPurge => if w.batch == [] then w.(batch := DueIds(w.requests, t.now, |w.requests|)) else w
    case PurgeNext(succeeds) =>
      if w.batch == [] || w.batch[0] >= |w.requests| then w else PurgeStep(w, succeeds, t.now)
  }

  function Run(w: World, run: seq<Timed>): World
    decreases |run|
  {
    if run == [] then w else Run(Step(w, run[0]), run[1..])
  }

  const EMPTY: World := World(map[], [], {}, [])

  ghost predicate Monotone(from: Time, run: seq<Timed>)
    decreases |run|
  {
    run == [] || (from <= run[0].now && Monotone(run[0].now, run[1..]))
  }

  function Ending(from: Time, run: seq<Timed>): Time {
    if run == [] then from else run[|run| - 1].now
  }

  // ---------------------------------------------------------------------- invariant

  ghost predicate RowOk(w: World, r: Deletion, now: Time) {
    && r.requestedAt <= now && r.scheduledFor == r.requestedAt + GRACE
    && (r.user.Some? ==> r.user.value in w.active)
    && (r.status == Pending ==> r.user.Some?)
    && (r.status == Canceled <==> r.canceledAt.Some?)
    && (r.canceledAt.Some? ==> r.canceledAt.value < r.scheduledFor)
    && (r.status == Completed <==> r.completedAt.Some?)
    && (r.completedAt.Some? ==> r.user.None? && r.completedAt.value >= r.scheduledFor)
  }

  ghost predicate RowsOk(w: World, now: Time) {
    forall i | 0 <= i < |w.requests| :: RowOk(w, w.requests[i], now)
  }

  /** Two requests of one user are never both pending. */
  ghost predicate OnePending(w: World) {
    forall i, j | 0 <= i < j < |w.requests| && w.requests[i].status == Pending && w.requests[j].status == Pending ::
      w.requests[i].user != w.requests[j].user
  }

  /** Whatever the purge still has to do is still due. */
  ghost predicate BatchOk(w: World, now: Time) {
    && (forall i | i in w.batch :: i < |w.requests| && Due(w.requests[i], now))
    && (forall i, j | 0 <= i < j < |w.batch| :: w.batch[i] != w.batch[j])
  }

  ghost predicate TokensOk(w: World) {
    forall t | t in w.issued :: t.id < |w.requests| && t == CreateCancelToken(w.requests, t.id)
  }

  ghost predicate Inv(w: World, now: Time) {
    RowsOk(w, now) && OnePending(w) && BatchOk(w, now) && TokensOk(w)
  }

  /** A token that is still accepted belongs to a request that is not yet due. */
  lemma {:induction false} AcceptedIsNotDue(w: World, token: CancelToken, now: Time)
    requires TokensOk(w) && Cancellable(w, token, now)
    ensures token.id < |w.requests| && now < w.requests[token.id].scheduledFor
    ensures !Due(w.requests[token.id], now)
  {
  }

  /** What a step does to one row: fixed fields stay, and only a pending request changes
      its status. */
  lemma {:induction false} RowStep(w: World, t: Timed, before: Time, i: nat)
    requires Inv(w, before) && before <= t.now && i < |w.requests|
    ensures i < |Step(w, t).requests|
    ensures var a, b := w.requests[i], Step(w, t).requests[i];
      && b.requestedAt == a.requestedAt && b.scheduledFor == a.scheduledFor && b.jti == a.jti
      && (b.user == a.user || (b.user == None && b.status != Pending))
      && (a.status != Pending ==>
            b.status == a.status && b.canceledAt == a.canceledAt && b.completedAt == a.completedAt)
  {
    if t.event.PurgeNext? && w.batch != [] { assert w.batch[0] in w.batch; PurgeRow(w, t, before, i); }
  }

  lemma {:induction false} PurgeRow(w: World, t: Timed, before: Time, i: nat)
    requires Inv(w, before) && before <= t.now && i < |w.requests| && t.event.PurgeNext?
    requires w.batch != [] && w.batch[0] in w.batch
    ensures i < |Step(w, t).requests|
    ensures var id := w.batch[0];
      var a, b, u := w.requests[i], Step(w, t).requests[i], w.requests[id].user;
      && b == if !t.event.succeeds then (if i == id then a.(status := Failed) else a)
              else if i == id then a.(user := None, status := Completed, completedAt := Some(t.now))
              else if a.user == u then a.(user := None) else a
    ensures i != w.batch[0] && w.requests[i].user == w.requests[w.batch[0]].user ==> w.requests[i].status != Pending
  {
  }

  lemma {:induction false} StepKeepsRow(w: World, t: Timed, before: Time, i: nat)
    requires Inv(w, before) && before <= t.now && i < |Step(w, t).requests|
    ensures RowOk(Step(w, t), Step(w, t).requests[i], t.now)
  {
    if i < |w.requests| {
      assert RowOk(w, w.requests[i], before);
      match t.event
      case PurgeNext(succeeds) => PurgeKeepsRow(w, t, before, i);
      case Cancel(token) => if Cancellable(w, token, t.now) { AcceptedIsNotDue(w, token, t.now); }
      case _ =>
    }
  }

  lemma {:induction false} PurgeKeepsRow(w: World, t: Timed, before: Time, i: nat)
    requires Inv(w, before) && before <= t.now && t.event.PurgeNext? && i < |w.requests|
    ensures i < |Step(w, t).requests| && RowOk(Step(w, t), Step(w, t).requests[i], t.now)
  {
    assert RowOk(w, w.requests[i], before);
    if w.batch != [] {
      assert w.batch[0] in w.batch && RowOk(w, w.requests[w.batch[0]], before);
      PurgeRow(w, t, before, i);
    }
  }

  lemma {:induction false} StepKeepsOnePending(w: World, t: Timed, before: Time)
    requires Inv(w, before) && before <= t.now
    ensures OnePending(Step(w, t))
  {
    var rs := Step(w, t).requests;
    forall i, j | 0 <= i < j < |rs| && rs[i].status == Pending && rs[j].status == Pending
      ensures rs[i].user != rs[j].user
    {
      RowStep(w, t, before, i);
      if j < |w.requests| {
        RowStep(w, t, before, j);
      } else {
        assert w.requests[i] in w.requests;
      }
    }
  }

  /** A due request stays due until the purge reaches it: nothing can cancel it any more. */
  lemma {:induction false} DueStaysDue(w: World, t: Timed, before: Time, i: nat)
    requires Inv(w, before) && before <= t.now && i < |w.requests| && Due(w.requests[i], before)
    requires t.event.PurgeNext? && w.batch != [] ==> w.batch[0] != i
    ensures Step(w, t).requests[i] == w.requests[i]
  {
    match t.event
    case PurgeNext(succeeds) => if w.batch != [] { assert w.batch[0] in w.batch; PurgeRow(w, t, before, i); }
    case Cancel(token) => if Cancellable(w, token, t.now) { AcceptedIsNotDue(w, token, t.now); }
    case _ =>
  }

  lemma {:induction false} StepKeepsBatch(w: World, t: Timed, before: Time)
    requires Inv(w, before) && before <= t.now
    ensures BatchOk(Step(w, t), t.now)
  {
    var w' := Step(w, t);
    if w.batch != [] {
      assert w.batch[0] in w.batch;
      forall i | i in w'.batch ensures i < |w'.requests| && Due(w'.requests[i], t.now) {
        var k :| 0 <= k < |w'.batch| && w'.batch[k] == i;
        assert i in w.batch && (t.event.PurgeNext? ==> w.batch[k + 1] == i);
        DueStaysDue(w, t, before, i);
      }
    }
  }

  lemma {:induction false} StepKeepsTokens(w: World, t: Timed, before: Time)
    requires Inv(w, before) && before <= t.now
    ensures TokensOk(Step(w, t))
  {
    forall token | token in w.issued
      ensures token.id < |Step(w, t).requests| && token == CreateCancelToken(Step(w, t).requests, token.id)
    {
      RowStep(w, t, before, token.id);
    }
  }

  lemma {:induction false} StepKeepsInv(w: World, t: Timed, before: Time)
    requires Inv(w, before) && before <= t.now
    ensures Inv(Step(w, t), t.now)
  {
    forall i | 0 <= i < |Step(w, t).requests| ensures RowOk(Step(w, t), Step(w, t).requests[i], t.now) {
      StepKeepsRow(w, t, before, i);
    }
    StepKeepsOnePending(w, t, before);
    StepKeepsBatch(w, t, before);
    StepKeepsTokens(w, t, before);
  }

  /** Every history: at most one pending request per user, and a purge under way only ever
      holds requests that are still pending and due, whatever happened since it read them. */
  lemma {:induction false} RunKeepsInv(w: World, run: seq<Timed>, before: Time)
    requires Inv(w, before) && Monotone(before, run)
    ensures Inv(Run(w, run), Ending(before, run))
    decreases |run|
  {
    if run != [] {
      StepKeepsInv(w, run[0], before);
      RunKeepsInv(Step(w, run[0]), run[1..], run[0].now);
    }
  }

  // ------------------------------------------------------------------- what is final

  /** Canceled, completed and failed are never left, even by a purge that read its list
      before: its writes look at no status and still never undo a cancellation. */
  lemma {:induction false} OutcomesAreFinal(w: World, run: seq<Timed>, before: Time, i: nat)
    requires Inv(w, before) && Monotone(before, run) && i < |w.requests| && w.requests[i].status != Pending
    ensures var a, rs := w.requests[i], Run(w, run).requests;
      && i < |rs| && rs[i].status == a.status && rs[i].canceledAt == a.canceledAt && rs[i].completedAt == a.completedAt
    decreases |run|
  {
    if run != [] {
      RowStep(w, run[0], before, i);
      StepKeepsInv(w, run[0], before);
      OutcomesAreFinal(Step(w, run[0]), run[1..], run[0].now, i);
    }
  }

  /** For the token of a pending request: it is accepted up to the whole second before the
      schedule, the request is due from the schedule on, so never both; and neither holds
      exactly in the fraction of a second between. */
  lemma {:induction false} NeverBothSometimesNeither(w: World, id: nat, now: Time, at: Time)
    requires Inv(w, at) && id < |w.requests| && w.requests[id].status == Pending && w.requests[id].jti != ""
    requires CreateCancelToken(w.requests, id) in w.issued
    ensures var sched := w.requests[id].scheduledFor;
      var can, due := Cancellable(w, CreateCancelToken(w.requests, id), now), Due(w.requests[id], now);
      && !(can && due)
      && (!can && !due <==> FloorSecond(sched) <= now < sched)
      && (can <==> now < FloorSecond(sched))
  {
    assert RowOk(w, w.requests[id], at);
  }

  /** An account disappears only through its own pending request, made at least seven days
      before. */
  lemma {:induction false} DeletionTakesSevenDays(w: World, t: Timed, before: Time, user: nat)
    requires Inv(w, before) && before <= t.now && user in w.active && user !in Step(w, t).active
    ensures t.event == PurgeNext(true) && w.batch != [] && w.batch[0] < |w.requests|
    ensures var id := w.batch[0];
      && w.requests[id].user == Some(user) && w.requests[id].status == Pending
      && w.requests[id].requestedAt + GRACE <= t.now
      && Step(w, t).requests[id].status == Completed
  {
    assert w.batch[0] in w.batch;
    assert RowOk(w, w.requests[w.batch[0]], before);
  }

  // ---------------------------------------------------------------------- inactivity

  /** Accounts with a pending request are inactive. */
  ghost predicate PendingInactive(w: World) {
    forall r | r in w.requests && r.status == Pending && r.user.Some? && r.user.value in w.active ::
      !w.active[r.user.value]
  }

  /** Only an administrator who switches the account back on breaks that. */
  lemma {:induction false} InactivityStep(w: World, t: Timed, before: Time)
    requires Inv(w, before) && before <= t.now && PendingInactive(w)
    ensures PendingInactive(Step(w, t)) <==> !WakesPending(w, t)
  {
    var w' := Step(w, t);
    if WakesPending(w, t) {
      var r :| r in w.requests && r.user == Some(t.event.user) && r.status == Pending;
      assert r in w'.requests && w'.active[r.user.value];
    } else {
      forall r | r in w'.requests && r.status == Pending && r.user.Some? && r.user.value in w'.active
        ensures !w'.active[r.user.value]
      {
        var i :| 0 <= i < |w'.requests| && w'.requests[i] == r;
        InactivityRow(w, t, before, i);
      }
    }
  }

  lemma {:induction false} InactivityRow(w: World, t: Timed, before: Time, i: nat)
    requires Inv(w, before) && before <= t.now && PendingInactive(w)
    requires !WakesPending(w, t)
    requires i < |Step(w, t).requests| && Step(w, t).requests[i].status == Pending && Step(w, t).requests[i].user.Some?
    ensures var u := Step(w, t).requests[i].user.value; u in Step(w, t).active ==> !Step(w, t).active[u]
  {
    if i < |w.requests| {
      RowStep(w, t, before, i);
      assert w.requests[i] in w.requests && RowOk(w, w.requests[i], before);
      match t.event
      case Cancel(token) => if Cancellable(w, token, t.now) { assert token.id < |w.requests|; }
      case _ =>
    }
  }

  /** The step switches on an account that has a pending request. */
  predicate WakesPending(w: World, t: Timed) {
    t.event.SetActive? && t.event.active && t.event.user in w.active && HasPending(w.requests, t.event.user)
  }

  ghost predicate NeverWakesPending(w: World, run: seq<Timed>)
    decreases |run|
  {
    run == [] || (!WakesPending(w, run[0]) && NeverWakesPending(Step(w, run[0]), run[1..]))
  }

  ghost predicate PendingInactiveThroughout(w: World, run: seq<Timed>)
    decreases |run|
  {
    PendingInactive(w) && (run != [] ==> PendingInactiveThroughout(Step(w, run[0]), run[1..]))
  }

  /** Over every history: accounts are inactive whenever they have a pending request exactly
      when no administrator switches one on while it has. */
  lemma {:induction false} InactiveThroughoutIff(w: World, run: seq<Timed>, before: Time)
    requires Inv(w, before) && Monotone(before, run) && PendingInactive(w)
    ensures PendingInactiveThroughout(w, run) <==> NeverWakesPending(w, run)
    decreases |run|
  {
    if run != [] {
      InactivityStep(w, run[0], before);
      StepKeepsInv(w, run[0], before);
      if PendingInactive(Step(w, run[0])) { InactiveThroughoutIff(Step(w, run[0]), run[1..], run[0].now); }
    }
  }

  lemma {:induction false} InactiveFromTheStart(run: seq<Timed>, start: Time)
    requires Monotone(start, run)
    ensures PendingInactiveThroughout(EMPTY, run) <==> NeverWakesPending(EMPTY, run)
  {
    InactiveThroughoutIff(EMPTY, run, start);
  }

  predicate Reactivates(t: Timed, user: nat) {
    t.event == SetActive(user, true)
  }

  /** An account in that state is stranded: inactive, with nothing pending, it can neither be
      cancelled, nor requested again, nor deleted, until an administrator steps in. */
  lemma {:induction false} FailedAccountIsStranded(w: World, run: seq<Timed>, before: Time, user: nat)
    requires Inv(w, before) && Monotone(before, run)
    requires user in w.active && !w.active[user] && !HasPending(w.requests, user)
    requires forall t | t in run :: !Reactivates(t, user)
    ensures var w' := Run(w, run); user in w'.active && !w'.active[user] && !HasPending(w'.requests, user)
    decreases |run|
  {
    if run != [] {
      assert run[0] in run && forall t | t in run[1..] :: t in run;
      StrandedStep(w, run[0], before, user);
      StepKeepsInv(w, run[0], before);
      FailedAccountIsStranded(Step(w, run[0]), run[1..], run[0].now, user);
    }
  }

  /** What a failed deletion leaves behind, at once. */
  lemma {:induction false} FailureStrands(w: World, t: Timed, before: Time)
    requires Inv(w, before) && before <= t.now && PendingInactive(w)
    requires t.event == PurgeNext(false) && w.batch != []
    ensures w.batch[0] < |w.requests| && w.requests[w.batch[0]].user.Some?
    ensures var user, w' := w.requests[w.batch[0]].user.value, Step(w, t);
      && w'.requests[w.batch[0]].status == Failed
      && user in w'.active && !w'.active[user] && !HasPending(w'.requests, user)
  {
    var id := w.batch[0];
    assert id in w.batch && w.requests[id] in w.requests && RowOk(w, w.requests[id], before);
    forall r | r in Step(w, t).requests ensures !(r.user == w.requests[id].user && r.status == Pending) {
      var i :| 0 <= i < |w.requests| && Step(w, t).requests[i] == r;
      PurgeRow(w, t, before, i);
    }
  }

  /** After a failed deletion the account is inactive, with nothing pending, in every later
      state until an administrator switches it on. */
  lemma {:induction false} FailedDeletionStrandsAccount(w: World, t: Timed, run: seq<Timed>, before: Time)
    requires Inv(w, before) && before <= t.now && Monotone(t.now, run) && PendingInactive(w)
    requires t.event == PurgeNext(false) && w.batch != []
    requires w.batch[0] < |w.requests| && w.requests[w.batch[0]].user.Some?
    requires forall e | e in run :: !Reactivates(e, w.requests[w.batch[0]].user.value)
    ensures var user, w' := w.requests[w.batch[0]].user.value, Run(Step(w, t), run);
      user in w'.active && !w'.active[user] && !HasPending(w'.requests, user)
  {
    FailureStrands(w, t, before);
    StepKeepsInv(w, t, before);
    FailedAccountIsStranded(Step(w, t), run, t.now, w.requests[w.batch[0]].user.value);
  }

  lemma {:induction false} StrandedStep(w: World, t: Timed, before: Time, user: nat)
    requires Inv(w, before) && before <= t.now && !Reactivates(t, user)
    requires user in w.active && !w.active[user] && !HasPending(w.requests, user)
    ensures user in Step(w, t).active && !Step(w, t).active[user] && !HasPending(Step(w, t).requests, user)
  {
    var w' := Step(w, t);
    forall r | r in w'.requests ensures !(r.user == Some(user) && r.status == Pending) {
      var i :| 0 <= i < |w'.requests| && w'.requests[i] == r;
      if i < |w.requests| {
        RowStep(w, t, before, i);
        assert w.requests[i] in w.requests;
      }
    }
    if w.batch != [] { assert w.batch[0] in w.batch; }
  }

  // ----------------------------------------------------------------------- in place

  datatype Answer = Rejected | AlreadyPending | Scheduled(id: nat) | Undone

  /** How one deletion of a purge went, and when it was over. */
  datatype Attempt = Attempt(succeeds: bool, ended: Time)

  function PurgeEvents(attempts: seq<Attempt>): (r: seq<Timed>)
    ensures |r| == |attempts|
    ensures forall i | 0 <= i < |r| :: r[i] == Timed(PurgeNext(attempts[i].succeeds), attempts[i].ended)
  {
    seq(|attempts|, i requires 0 <= i < |attempts| => Timed(PurgeNext(attempts[i].succeeds), attempts[i].ended))
  }

  function Successes(attempts: seq<Attempt>): nat {
    if attempts == [] then 0
    else Successes(attempts[..|attempts| - 1]) + if attempts[|attempts| - 1].succeeds then 1 else 0
  }

  /** A purge settles every request it found due, each as its own deletion went. */
  lemma {:induction false} PurgeSettles(w: World, attempts: seq<Attempt>, before: Time)
    requires Inv(w, before) && |attempts| == |w.batch| && Monotone(before, PurgeEvents(attempts))
    ensures var w' := Run(w, PurgeEvents(attempts));
      && w'.batch == []
      && forall k | 0 <= k < |attempts| ::
           && w.batch[k] in w.batch && w.batch[k] < |w'.requests|
           && w'.requests[w.batch[k]].status == if attempts[k].succeeds then Completed else Failed
    decreases |attempts|
  {
    if attempts != [] {
      var events := PurgeEvents(attempts);
      var next := Step(w, events[0]);
      assert events[1..] == PurgeEvents(attempts[1..]) && w.batch[0] in w.batch;
      StepKeepsInv(w, events[0], before);
      PurgeRow(w, events[0], before, w.batch[0]);
      OutcomesAreFinal(next, events[1..], events[0].now, w.batch[0]);
      PurgeSettles(next, attempts[1..], events[0].now);
      forall k | 1 <= k < |attempts|
        ensures w.batch[k] == next.batch[k - 1] && attempts[k] == attempts[1..][k - 1] && w.batch[k] in w.batch
      {
      }
    }
  }

  class Accounts {
    var active: map<nat, bool>
    var requests: seq<Deletion>
    ghost var issued: set<CancelToken>

    /** Between two requests no purge is under way. */
    ghost function View(): World
      reads this
    {
      World(active, requests, issued, [])
    }

    constructor ()
      ensures View() == EMPTY
    {
      active, requests, issued := map[], [], {};
    }

    method RequestDeletion(user: nat, confirmed: bool, jti: string, now: Time) returns (r: Answer, token: CancelToken)
      modifies this
      ensures View() == Step(old(View()), Timed(Request(user, confirmed, jti), now))
      ensures r.Scheduled? ==>
        r.id == |old(requests)| && r.id < |requests| && token == CreateCancelToken(requests, r.id)
      ensures r.Rejected? <==> user !in old(active) || !old(active)[user] || !confirmed
      ensures r.AlreadyPending? <==> !r.Rejected? && HasPending(old(requests), user)
    {
      token := CancelToken(0, "", 0);
      if user !in active || !active[user] { return Rejected, token; }
      if !confirmed { return Rejected, token; }
      if exists x | x in requests :: x.user == Some(user) && x.status == Pending { return AlreadyPending, token; }
      requests := requests + [Deletion(Some(user), Pending, now, now + GRACE, jti, None, None)];
      active := active[user := false];
      token := CreateCancelToken(requests, |requests| - 1);
      issued := issued + {token};
      r := Scheduled(|requests| - 1);
    }

    /** `signed`: the presented token is one this service issued. */
    method CancelDeletion(token: CancelToken, signed: bool, now: Time) returns (r: Answer)
      requires signed <==> token in issued
      modifies this
      ensures View() == Step(old(View()), Timed(Cancel(token), now))
      ensures r.Undone? <==> Cancellable(old(View()), token, now)
      ensures r.Undone? || r.Rejected?
    {
      if !signed || token.expiry <= now { return Rejected; }
      if token.jti == "" { return Rejected; }
      if token.id >= |requests| || requests[token.id].jti != token.jti { return Rejected; }
      if requests[token.id].status != Pending { return Rejected; }
      var user := requests[token.id].user;
      requests := requests[token.id := requests[token.id].(status := Canceled, canceledAt := Some(now))];
      if user.Some? && user.value in active && !active[user.value] { active := active[user.value := true]; }
      r := Undone;
    }

    /** One account of a purge that has `rest` still to do after it. */
    method DeleteOne(id: nat, attempt: Attempt, ghost rest: seq<nat>, ghost before: Time) returns (done: bool)
      requires Inv(During([id] + rest), before) && before <= attempt.ended
      modifies this
      ensures During(rest) == Step(old(During([id] + rest)), Timed(PurgeNext(attempt.succeeds), attempt.ended))
      ensures Inv(During(rest), attempt.ended) && |requests| == |old(requests)|
      ensures done == attempt.succeeds
    {
      ghost var w := During([id] + rest);
      ghost var t := Timed(PurgeNext(attempt.succeeds), attempt.ended);
      assert w.batch[0] == id && w.batch[1..] == rest && id in w.batch;
      StepKeepsInv(w, t, before);
      done := attempt.succeeds;
      var r := requests[id];
      if r.user.Some? {
        if done {
          active := active - {r.user.value};
          requests := Orphan(requests, r.user.value)[id := Settled(r, attempt.ended)];
        } else {
          requests := requests[id := r.(status := Failed)];
        }
      }
      assert During(rest) == Step(w, t);
    }

    /** One purge from start to end, its k-th deletion going as `attempts[k]` says. */
    method HardDeleteAccounts(now: Time, attempts: seq<Attempt>) returns (deleted: nat, failed: nat)
      requires Inv(View(), now) && |attempts| == |DueIds(requests, now, |requests|)|
      requires Monotone(now, PurgeEvents(attempts))
      modifies this
      ensures View() == Run(Step(old(View()), Timed(StartPurge, now)), PurgeEvents(attempts))
      ensures deleted == Successes(attempts) && deleted + failed == |attempts|
    {
      var due := DueIds(requests, now, |requests|);
      deleted, failed := 0, 0;
      ghost var events := PurgeEvents(attempts);
      ghost var time := now;
      StepKeepsInv(View(), Timed(StartPurge, now), now);
      for k := 0 to |due|
        invariant Inv(During(due[k..]), time) && Monotone(time, events[k..])
        invariant Run(During(due[k..]), events[k..]) == Run(Step(old(View()), Timed(StartPurge, now)), events)
        invariant deleted == Successes(attempts[..k]) && deleted + failed == k
      {
        assert events[k..][0] == events[k] && events[k..][1..] == events[k + 1..];
        assert due[k..] == [due[k]] + due[k + 1..];
        assert attempts[..k + 1][..k] == attempts[..k];
        var done := DeleteOne(due[k], attempts[k], due[k + 1..], time);
        if done { deleted := deleted + 1; } else { failed := failed + 1; }
        time := attempts[k].ended;
      }
      assert due[|due|..] == [] && events[|due|..] == [] && attempts[..|due|] == attempts;
    }

    ghost function During(batch: seq<nat>): World
      reads this
    {
      World(active, requests, issued, batch)
    }
  }
}
