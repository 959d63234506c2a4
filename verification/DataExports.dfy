/**
  Data-export requests: one user's requests never overlap, and finished exports lie at
  least 24 hours apart.

  Every request, task start, task end and purge is one atomic step. A task that failed is
  delivered again by its automatic retry; one that was lost may be delivered again or not.
*/
module DataExports {
  import opened Common

  datatype Status = Pending | Processing | Ready | Failed | Expired

  /** `stored`: the row still names an archive in storage. */
  datatype Export = Export(user: nat, status: Status, requestedAt: Time, readyAt: Option<Time>, stored: bool)

  /** The table, and the executions of the export task under way, by request. */
  datatype Desk = Desk(exports: seq<Export>, running: multiset<nat>)

  datatype Event =
    | Request(user: nat)
    | Start(id: nat)
    | Finish(id: nat)
    | Fail(id: nat)
    | Lose(id: nat)
    | Purge

  datatype Timed = Timed(event: Event, now: Time)

  const SPACING: Time := 24 * HOUR
  const LINK_LIFE: Time := 7 * DAY

  predicate InProgress(e: Export) {
    e.status == Pending || e.status == Processing
  }

  predicate Blocks(e: Export, user: nat, now: Time) {
    e.user == user &&
    (InProgress(e) || (e.status == Ready && e.readyAt.Some? && e.readyAt.value > now - SPACING))
  }

  predicate Refused(exports: seq<Export>, user: nat, now: Time) {
    exists e | e in exports :: Blocks(e, user, now)
  }

  predicate Stale(e: Export, now: Time) {
    e.status == Ready && e.readyAt.Some? && e.readyAt.value < now - LINK_LIFE && e.stored
  }

  function Purged(exports: seq<Export>, now: Time): (r: seq<Export>)
    ensures |r| == |exports|
    ensures forall i | 0 <= i < |r| ::
      r[i] == if Stale(exports[i], now) then exports[i].(status := Expired, stored := false) else exports[i]
  {
    seq(|exports|, i requires 0 <= i < |exports| =>
      if Stale(exports[i], now) then exports[i].(status := Expired, stored := false) else exports[i])
  }

  function Step(d: Desk, t: Timed): Desk {
    match t.event
    case Request(u) =>
      if Refused(d.exports, u, t.now) then d
      else d.(exports := d.exports + [Export(u, Pending, t.now, None, false)])
    case Start(id) =>
      if id < |d.exports| && InProgress(d.exports[id]) then
        Desk(d.exports[id := d.exports[id].(status := Processing)], d.running + multiset{id})
      else d
    case Finish(id) =>
      if id < |d.exports| && id in d.running then
        Desk(d.exports[id := d.exports[id].(status := Ready, readyAt := Some(t.now), stored := true)],
             d.running - multiset{id})
      else d
    case Fail(id) =>
      if id < |d.exports| && id in d.running then
        Desk(d.exports[id := d.exports[id].(status := Failed)], d.running - multiset{id})
      else d
    case Lose(id) => d.(running := d.running - multiset{id})
    case Purge => d.(exports := Purged(d.exports, t.now))
  }

  function Run(d: Desk, run: seq<Timed>): Desk
    decreases |run|
  {
    if run == [] then d else Run(Step(d, run[0]), run[1..])
  }

  const EMPTY: Desk := Desk([], multiset{})

  ghost predicate Monotone(from: Time, run: seq<Timed>)
    decreases |run|
  {
    run == [] || (from <= run[0].now && Monotone(run[0].now, run[1..]))
  }

  // ---------------------------------------------------------------- task executions

  /** The task ends on a request that is still being processed. */
  predicate EndsOnProcessing(d: Desk, t: Timed) {
    (t.event.Finish? || t.event.Fail?) && t.event.id < |d.exports| && t.event.id in d.running ==>
      d.exports[t.event.id].status == Processing
  }

  ghost predicate EndsOnce(d: Desk, run: seq<Timed>)
    decreases |run|
  {
    run == [] || (EndsOnProcessing(d, run[0]) && EndsOnce(Step(d, run[0]), run[1..]))
  }

  /** No execution of a request starts while another is under way. */
  ghost predicate OneAtATime(d: Desk, run: seq<Timed>)
    decreases |run|
  {
    run == [] ||
    ((run[0].event.Start? ==> run[0].event.id !in d.running) && OneAtATime(Step(d, run[0]), run[1..]))
  }

  ghost predicate Exclusive(d: Desk) {
    forall id | id in d.running :: id < |d.exports| && d.running[id] == 1 && d.exports[id].status == Processing
  }

  /** One execution at a time is enough for every execution to end on a request still being
      processed. */
  lemma {:induction false} OneAtATimeEndsOnce(d: Desk, run: seq<Timed>)
    requires Exclusive(d) && OneAtATime(d, run)
    ensures EndsOnce(d, run)
    decreases |run|
  {
    if run != [] {
      ExclusiveStep(d, run[0]);
      OneAtATimeEndsOnce(Step(d, run[0]), run[1..]);
    }
  }

  lemma {:induction false} ExclusiveStep(d: Desk, t: Timed)
    requires Exclusive(d) && (t.event.Start? ==> t.event.id !in d.running)
    ensures EndsOnProcessing(d, t) && Exclusive(Step(d, t))
  {
  }

  // ---------------------------------------------------------------------- invariant

  ghost predicate RowOk(e: Export, now: Time) {
    && e.requestedAt <= now
    && (e.readyAt.Some? <==> e.status == Ready || e.status == Expired)
    && (e.readyAt.Some? ==> e.requestedAt <= e.readyAt.value <= now)
    && (e.status == Expired ==> e.readyAt.value < now - LINK_LIFE)
    && (e.status == Ready <==> e.stored)
  }

  /** An earlier request is over before a later one of its user is made, by 24 hours if it
      became ready. */
  ghost predicate Apart(earlier: Export, later: Export) {
    earlier.user == later.user ==>
      !InProgress(earlier) && (earlier.readyAt.Some? ==> later.requestedAt - earlier.readyAt.value >= SPACING)
  }

  ghost predicate Inv(d: Desk, now: Time) {
    && (forall i | 0 <= i < |d.exports| :: RowOk(d.exports[i], now))
    && (forall i, j | 0 <= i < j < |d.exports| :: Apart(d.exports[i], d.exports[j]))
  }

  /** What one step does to one row. */
  lemma {:induction false} RowStep(d: Desk, t: Timed, before: Time, i: nat)
    requires Inv(d, before) && before <= t.now && EndsOnProcessing(d, t) && i < |d.exports|
    ensures i < |Step(d, t).exports|
    ensures var a, b := d.exports[i], Step(d, t).exports[i];
      && RowOk(b, t.now) && b.user == a.user && b.requestedAt == a.requestedAt
      && (!InProgress(a) ==> !InProgress(b) && b.readyAt == a.readyAt)
  {
    assert RowOk(d.exports[i], before);
  }

  lemma {:induction false} NewRow(d: Desk, user: nat, now: Time, before: Time, i: nat)
    requires Inv(d, before) && before <= now && !Refused(d.exports, user, now) && i < |d.exports|
    ensures Apart(d.exports[i], Export(user, Pending, now, None, false))
  {
    assert RowOk(d.exports[i], before);
    assert d.exports[i] in d.exports && !Blocks(d.exports[i], user, now);
  }

  lemma {:induction false} StepKeepsInv(d: Desk, t: Timed, before: Time)
    requires Inv(d, before) && before <= t.now && EndsOnProcessing(d, t)
    ensures Inv(Step(d, t), t.now)
  {
    var es := Step(d, t).exports;
    forall i | 0 <= i < |es| ensures RowOk(es[i], t.now) {
      if i < |d.exports| { RowStep(d, t, before, i); }
    }
    forall i, j | 0 <= i < j < |es| ensures Apart(es[i], es[j]) {
      RowStep(d, t, before, i);
      if j < |d.exports| {
        RowStep(d, t, before, j);
        assert Apart(d.exports[i], d.exports[j]);
      } else {
        NewRow(d, t.event.user, t.now, before, i);
      }
    }
  }

  function Ending(from: Time, run: seq<Timed>): Time {
    if run == [] then from else run[|run| - 1].now
  }

  lemma {:induction false} RunKeepsInv(d: Desk, run: seq<Timed>, before: Time)
    requires Inv(d, before) && Monotone(before, run) && EndsOnce(d, run)
    ensures Inv(Run(d, run), Ending(before, run))
    decreases |run|
  {
    if run != [] {
      StepKeepsInv(d, run[0], before);
      RunKeepsInv(Step(d, run[0]), run[1..], run[0].now);
    }
  }

  // ------------------------------------------------------------- one at a time, spaced

  /** Of one user's requests only the latest can be in progress. */
  ghost predicate OnlyLatest(d: Desk) {
    forall i, j | 0 <= i < j < |d.exports| && d.exports[i].user == d.exports[j].user :: !InProgress(d.exports[i])
  }

  lemma {:induction false} StepKeepsOnlyLatest(d: Desk, t: Timed)
    requires OnlyLatest(d)
    ensures OnlyLatest(Step(d, t))
  {
    match t.event
    case Request(user) => RequestKeepsOnlyLatest(d, user, t.now);
    case _ =>
  }

  lemma {:induction false} RequestKeepsOnlyLatest(d: Desk, user: nat, now: Time)
    requires OnlyLatest(d)
    ensures OnlyLatest(Step(d, Timed(Request(user), now)))
  {
    if !Refused(d.exports, user, now) {
      forall e | e in d.exports && e.user == user ensures !InProgress(e) { assert !Blocks(e, user, now); }
    }
  }

  /** In every run whatever, overlapping executions and any clock included, a user has at
      most one request in progress, the latest. */
  lemma {:induction false} OnlyLatestInProgress(d: Desk, run: seq<Timed>)
    requires OnlyLatest(d)
    ensures OnlyLatest(Run(d, run))
    decreases |run|
  {
    if run != [] {
      StepKeepsOnlyLatest(d, run[0]);
      OnlyLatestInProgress(Step(d, run[0]), run[1..]);
    }
  }

  ghost predicate SpacedPair(a: Export, b: Export) {
    a.user == b.user && a.readyAt.Some? && b.readyAt.Some? ==>
      a.readyAt.value - b.readyAt.value >= SPACING || b.readyAt.value - a.readyAt.value >= SPACING
  }

  /** Any two exports of a user that ever became ready did so at least 24 hours apart. */
  ghost predicate Spaced(d: Desk) {
    forall i, j | 0 <= i < j < |d.exports| :: SpacedPair(d.exports[i], d.exports[j])
  }

  lemma {:induction false} InvIsSpaced(d: Desk, now: Time)
    requires Inv(d, now)
    ensures Spaced(d)
  {
    forall i, j | 0 <= i < j < |d.exports| ensures SpacedPair(d.exports[i], d.exports[j]) {
      assert Apart(d.exports[i], d.exports[j]) && RowOk(d.exports[j], now);
    }
  }

  /** In every run in which no execution ends on a request that is already over, the exports
      of a user become ready in the order requested and 24 hours apart, expired ones included. */
  lemma {:induction false} ExportSpacing(run: seq<Timed>, start: Time, i: nat, j: nat)
    requires Monotone(start, run) && EndsOnce(EMPTY, run)
    requires var es := Run(EMPTY, run).exports; i < j < |es| && es[i].user == es[j].user
    ensures var es := Run(EMPTY, run).exports;
      && !InProgress(es[i])
      && (es[i].readyAt.Some? && es[j].readyAt.Some? ==> es[j].readyAt.value - es[i].readyAt.value >= SPACING)
  {
    RunKeepsInv(EMPTY, run, start);
    var es := Run(EMPTY, run).exports;
    assert Apart(es[i], es[j]);
  }

  // ----------------------------------------------------------- exactly when it is lost

  /** Executions under way belong to requests that were started. */
  ghost predicate Tracked(d: Desk) {
    forall id | id in d.running :: id < |d.exports| && d.exports[id].status != Pending
  }

  lemma {:induction false} RunKeepsTracked(d: Desk, run: seq<Timed>)
    requires Tracked(d)
    ensures Tracked(Run(d, run))
    decreases |run|
  {
    if run != [] {
      StepKeepsTracked(d, run[0]);
      RunKeepsTracked(Step(d, run[0]), run[1..]);
    }
  }

  lemma {:induction false} StepKeepsTracked(d: Desk, t: Timed)
    requires Tracked(d)
    ensures Tracked(Step(d, t))
  {
  }

  /** Whatever comes, as long as no execution starts while another of its request runs. */
  ghost predicate StaysSpaced(d: Desk, from: Time) {
    forall run | Monotone(from, run) && OneAtATime(d, run) :: Spaced(Run(d, run))
  }

  lemma {:induction false} StaysSpacedStep(d: Desk, from: Time, t: Timed)
    requires StaysSpaced(d, from) && from <= t.now && (t.event.Start? ==> t.event.id !in d.running)
    ensures StaysSpaced(Step(d, t), t.now)
  {
    forall run | Monotone(t.now, run) && OneAtATime(Step(d, t), run) ensures Spaced(Run(Step(d, t), run)) {
      var longer := [t] + run;
      assert longer[1..] == run;
      assert Monotone(from, longer) && OneAtATime(d, longer);
    }
  }

  /** Two executions of different requests of one user can end at the same moment. */
  lemma {:induction false} EndTogether(d: Desk, from: Time, i: nat, j: nat)
    requires i in d.running && j in d.running && i != j && i < |d.exports| && j < |d.exports|
    requires d.exports[i].user == d.exports[j].user
    ensures !StaysSpaced(d, from)
  {
    var first, second := Timed(Finish(i), from), Timed(Finish(j), from);
    var one := Step(d, first);
    var two := Step(one, second);
    var lo, hi := if i < j then i else j, if i < j then j else i;
    assert !SpacedPair(two.exports[lo], two.exports[hi]);
    if StaysSpaced(d, from) {
      StaysSpacedStep(d, from, first);
      StaysSpacedStep(one, from, second);
      SpacedNow(two, from);
    }
  }

  lemma {:induction false} SpacedNow(d: Desk, from: Time)
    requires StaysSpaced(d, from)
    ensures Spaced(d)
  {
    assert Monotone(from, []) && OneAtATime(d, []) && Run(d, []) == d;
  }

  /** Once a user's exports are 24 hours old, asking leaves a request in progress. */
  lemma {:induction false} RequestLeavesOne(d: Desk, before: Time, user: nat) returns (j: nat)
    requires Inv(d, before)
    ensures var es := Step(d, Timed(Request(user), before + SPACING)).exports;
      && j < |es| && es[j].user == user && InProgress(es[j])
      && (j < |d.exports| ==> es[j] == d.exports[j])
  {
    if Refused(d.exports, user, before + SPACING) {
      var e :| e in d.exports && Blocks(e, user, before + SPACING);
      j :| 0 <= j < |d.exports| && d.exports[j] == e;
      assert RowOk(d.exports[j], before);
    } else {
      j := |d.exports|;
    }
  }

  /** An execution still under way on a request that is over. */
  lemma {:induction false} LateExecutionBreaks(d: Desk, before: Time, id: nat)
    requires Inv(d, before) && Tracked(d) && id in d.running && !InProgress(d.exports[id])
    ensures !StaysSpaced(d, before)
  {
    if StaysSpaced(d, before) {
      var now, user := before + SPACING, d.exports[id].user;
      var j := RequestLeavesOne(d, before, user);
      var asked := Step(d, Timed(Request(user), now));
      StaysSpacedStep(d, before, Timed(Request(user), now));
      assert asked.exports[id] == d.exports[id] && asked.running == d.running;
      if j in asked.running {
        EndTogether(asked, now, id, j);
      } else {
        StaysSpacedStep(asked, now, Timed(Start(j), now));
        EndTogether(Step(asked, Timed(Start(j), now)), now, id, j);
      }
    }
  }

  /** Two executions under way on one request. */
  lemma {:induction false} DoubleExecutionBreaks(d: Desk, before: Time, id: nat)
    requires Inv(d, before) && Tracked(d) && d.running[id] >= 2 && d.exports[id].status == Processing
    ensures !StaysSpaced(d, before)
  {
    if StaysSpaced(d, before) {
      var t := Timed(Finish(id), before);
      StaysSpacedStep(d, before, t);
      StepKeepsInv(d, t, before);
      assert Step(d, t).running[id] >= 1;
      LateExecutionBreaks(Step(d, t), before, id);
    }
  }

  /** From a state of a run, the spacing holds in every continuation that starts no
      execution while another of its request is under way, exactly when each execution now
      under way is the only one of a request still being processed. */
  lemma {:induction false} StaysSpacedIffExclusive(d: Desk, before: Time)
    requires Inv(d, before) && Tracked(d)
    ensures StaysSpaced(d, before) <==> Exclusive(d)
  {
    if Exclusive(d) {
      forall run | Monotone(before, run) && OneAtATime(d, run) ensures Spaced(Run(d, run)) {
        OneAtATimeEndsOnce(d, run);
        RunKeepsInv(d, run, before);
        InvIsSpaced(Run(d, run), Ending(before, run));
      }
    } else {
      var id :| id in d.running && !(d.running[id] == 1 && d.exports[id].status == Processing);
      if d.exports[id].status == Processing {
        DoubleExecutionBreaks(d, before, id);
      } else {
        LateExecutionBreaks(d, before, id);
      }
    }
  }

  /** The same for every state reached from the empty table. */
  lemma {:induction false} SpacingLastsIffExclusive(run: seq<Timed>, start: Time)
    requires Monotone(start, run) && EndsOnce(EMPTY, run)
    ensures StaysSpaced(Run(EMPTY, run), Ending(start, run)) <==> Exclusive(Run(EMPTY, run))
  {
    RunKeepsInv(EMPTY, run, start);
    RunKeepsTracked(EMPTY, run);
    StaysSpacedIffExclusive(Run(EMPTY, run), Ending(start, run));
  }

  function Thrice(d: Desk, now: Time, a: Event, b: Event, c: Event): Desk {
    Step(Step(Step(d, Timed(a, now)), Timed(b, now)), Timed(c, now))
  }

  lemma {:induction false} TwoStartsOneFinish(user: nat, t: Time)
    ensures var asked := Step(EMPTY, Timed(Request(user), t));
      Thrice(asked, t, Start(0), Start(0), Finish(0)) == Desk([Export(user, Ready, t, Some(t), true)], multiset{0})
  {
    var asked := Step(EMPTY, Timed(Request(user), t));
    assert asked.exports == [Export(user, Pending, t, None, false)];
    var one := Step(asked, Timed(Start(0), t));
    assert one == Desk([Export(user, Processing, t, None, false)], multiset{0});
    var two := Step(one, Timed(Start(0), t));
    assert two == Desk(one.exports, multiset{0, 0});
    var three := Step(two, Timed(Finish(0), t));
    assert three.exports == [Export(user, Ready, t, Some(t), true)];
  }

  lemma {:induction false} LateFinish(first: Export, user: nat, u: Time)
    ensures var second := Export(user, Pending, u, None, false);
      var es := Thrice(Desk([first, second], multiset{0}), u, Start(1), Finish(1), Finish(0)).exports;
      |es| == 2 && es[0].user == first.user && es[1].user == user && es[0].readyAt == es[1].readyAt == Some(u)
  {
    var second := Export(user, Pending, u, None, false);
    var one := Step(Desk([first, second], multiset{0}), Timed(Start(1), u));
    assert one == Desk([first, second.(status := Processing)], multiset{0, 1});
    var two := Step(one, Timed(Finish(1), u));
    assert two == Desk([first, Export(user, Ready, u, Some(u), true)], multiset{0});
    var three := Step(two, Timed(Finish(0), u));
    assert three.exports ==
      [first.(status := Ready, readyAt := Some(u), stored := true), Export(user, Ready, u, Some(u), true)];
  }

  /** Without that discipline the spacing is lost: a second execution of the first request
      ends after the second request is ready. */
  lemma {:induction false} OverlappingExecutionsBreakSpacing(user: nat, t: Time)
    ensures var asked := Step(EMPTY, Timed(Request(user), t));
      var ready := Thrice(asked, t, Start(0), Start(0), Finish(0));
      var again := Step(ready, Timed(Request(user), t + SPACING));
      var es := Thrice(again, t + SPACING, Start(1), Finish(1), Finish(0)).exports;
      && |es| == 2 && es[0].user == es[1].user && es[0].readyAt == es[1].readyAt == Some(t + SPACING)
  {
    TwoStartsOneFinish(user, t);
    var ready := Desk([Export(user, Ready, t, Some(t), true)], multiset{0});
    assert !Refused(ready.exports, user, t + SPACING);
    var again := Step(ready, Timed(Request(user), t + SPACING));
    assert again == Desk([ready.exports[0], Export(user, Pending, t + SPACING, None, false)], multiset{0});
    LateFinish(ready.exports[0], user, t + SPACING);
  }

  // ------------------------------------------------------------------- what is final

  /** A failed or expired export stays so, and a ready one can only expire: the automatic
      retry of a failed task never does anything. */
  lemma {:induction false} OutcomesAreFinal(d: Desk, run: seq<Timed>, id: nat)
    requires EndsOnce(d, run) && id < |d.exports| && !InProgress(d.exports[id])
    ensures var es := Run(d, run).exports;
      && id < |es| && es[id].readyAt == d.exports[id].readyAt
      && (es[id].status == d.exports[id].status || (d.exports[id].status == Ready && es[id].status == Expired))
    decreases |run|
  {
    if run != [] { OutcomesAreFinal(Step(d, run[0]), run[1..], id); }
  }

  /** A request whose task is lost and not delivered again refuses its user forever. */
  lemma {:induction false} LostTaskRefusesForever(d: Desk, run: seq<Timed>, id: nat, now: Time)
    requires id < |d.exports| && InProgress(d.exports[id]) && id !in d.running
    requires forall t | t in run :: t.event != Start(id)
    ensures var es := Run(d, run).exports;
      id < |es| && es[id] == d.exports[id] && Refused(es, es[id].user, now)
    decreases |run|
  {
    if run == [] {
      assert Blocks(d.exports[id], d.exports[id].user, now);
    } else {
      assert run[0] in run && forall t | t in run[1..] :: t in run;
      LostTaskRefusesForever(Step(d, run[0]), run[1..], id, now);
    }
  }

  /** A purge leaves exactly the ready exports whose link is still alive, and none of its
      rows still names an archive that is seven days past. */
  lemma {:induction false} PurgeExpiresExactly(d: Desk, now: Time, before: Time, i: nat)
    requires Inv(d, before) && i < |d.exports|
    ensures var e := Step(d, Timed(Purge, now)).exports[i];
      && (e.status == Ready <==> d.exports[i].status == Ready && now <= d.exports[i].readyAt.value + LINK_LIFE)
      && (e.stored ==> e.readyAt.Some? && now <= e.readyAt.value + LINK_LIFE)
      && e.readyAt == d.exports[i].readyAt
  {
    assert RowOk(d.exports[i], before);
  }

  // ----------------------------------------------------------------------- in place

  datatype Response = Accepted(id: nat) | TooManyRequests

  function TaskEnd(id: nat, built: Option<Time>, ended: Time): Timed {
    if built.Some? then Timed(Finish(id), built.value) else Timed(Fail(id), ended)
  }

  datatype TaskResult = NotFound | WrongStatus | Success | Failure

  class ExportDesk {
    var exports: seq<Export>
    ghost var running: multiset<nat>

    ghost function View(): Desk
      reads this
    {
      Desk(exports, running)
    }

    constructor ()
      ensures View() == EMPTY
    {
      exports, running := [], multiset{};
    }

    method RequestExport(user: nat, now: Time) returns (r: Response)
      modifies this
      ensures View() == Step(old(View()), Timed(Request(user), now))
      ensures r.TooManyRequests? <==> Refused(old(exports), user, now)
      ensures r.Accepted? ==> r.id == |old(exports)|
    {
      if exists e | e in exports :: e.user == user && InProgress(e) { return TooManyRequests; }
      var recent := exists e | e in exports ::
        e.user == user && e.status == Ready && e.readyAt.Some? && e.readyAt.value > now - SPACING;
      if recent { return TooManyRequests; }
      r := Accepted(|exports|);
      exports := exports + [Export(user, Pending, now, None, false)];
    }

    /** One execution of the task: `built` is when the archive was uploaded and signed, if
        that succeeded. */
    method ExportUserData(user: nat, id: nat, started: Time, built: Option<Time>, ended: Time) returns (r: TaskResult)
      modifies this
      ensures r.NotFound? <==> id >= |old(exports)| || old(exports)[id].user != user
      ensures r.WrongStatus? <==> !r.NotFound? && !InProgress(old(exports)[id])
      ensures r.NotFound? || r.WrongStatus? ==> View() == old(View())
      ensures r.Success? || r.Failure? ==> (r.Success? <==> built.Some?)
      ensures r.Success? || r.Failure? ==>
        View() == Step(Step(old(View()), Timed(Start(id), started)), TaskEnd(id, built, ended))
    {
      if id >= |exports| || exports[id].user != user { return NotFound; }
      if exports[id].status !in {Pending, Processing} { return WrongStatus; }
      exports := exports[id := exports[id].(status := Processing)];
      running := running + multiset{id};
      assert View() == Step(old(View()), Timed(Start(id), started));
      match built {
        case Some(at) => MarkReady(id, at); r := Success;
        case None => MarkFailed(id, ended); r := Failure;
      }
    }

    method MarkReady(id: nat, now: Time)
      requires id < |exports| && id in running
      modifies this
      ensures View() == Step(old(View()), Timed(Finish(id), now))
    {
      exports := exports[id := exports[id].(status := Ready, readyAt := Some(now), stored := true)];
      running := running - multiset{id};
    }

    method MarkFailed(id: nat, ghost now: Time)
      requires id < |exports| && id in running
      modifies this
      ensures View() == Step(old(View()), Timed(Fail(id), now))
    {
      exports := exports[id := exports[id].(status := Failed)];
      running := running - multiset{id};
    }

    method PurgeExpiredExports(now: Time) returns (purged: nat)
      modifies this`exports
      ensures View() == Step(old(View()), Timed(Purge, now))
      ensures purged == |StaleBelow(old(exports), now, |exports|)|
    {
      purged := 0;
      for k := 0 to |exports|
        invariant |exports| == |old(exports)|
        invariant forall i | 0 <= i < k :: exports[i] == Purged(old(exports), now)[i]
        invariant forall i | k <= i < |exports| :: exports[i] == old(exports)[i]
        invariant purged == |StaleBelow(old(exports), now, k)|
      {
        StaleBelowNext(old(exports), now, k);
        if Stale(exports[k], now) {
          exports := exports[k := exports[k].(status := Expired, stored := false)];
          purged := purged + 1;
        }
      }
      assert exports == Purged(old(exports), now);
    }
  }

  ghost function StaleBelow(exports: seq<Export>, now: Time, k: nat): set<nat>
    requires k <= |exports|
  {
    set i: nat | i < k && Stale(exports[i], now)
  }

  lemma {:induction false} StaleBelowNext(exports: seq<Export>, now: Time, k: nat)
    requires k < |exports|
    ensures |StaleBelow(exports, now, k + 1)| == |StaleBelow(exports, now, k)| + if Stale(exports[k], now) then 1 else 0
  {
    var below := StaleBelow(exports, now, k);
    assert StaleBelow(exports, now, k + 1) == if Stale(exports[k], now) then below + {k} else below;
  }
}
