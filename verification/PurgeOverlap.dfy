/**
  Several deletion purges at once. A purge is delivered again when its worker is lost, so one
  may start while another is under way, and one may end before its list does. Each works on
  the requests and accounts as it read them and looks at no status again.
*/
module PurgeOverlap {
  import opened Common
  import opened AccountDeletion

  /** A request on a purge's list, with the account it was read with. */
  datatype Entry = Entry(id: nat, user: nat)

  /** `batches` holds, for each purge under way, what it has still to do. */
  datatype Floor = Floor(world: World, batches: map<nat, seq<Entry>>)

  datatype Move = View(event: Event) | Begin(k: nat) | Next(k: nat, succeeds: bool) | Lose(k: nat)

  datatype Moment = Moment(move: Move, now: Time)

  function Listed(requests: seq<Deletion>, ids: seq<nat>): (r: seq<Entry>)
    requires forall i | i in ids :: i < |requests| && requests[i].user.Some?
    ensures |r| == |ids|
    ensures forall i | 0 <= i < |r| :: ids[i] in ids && r[i] == Entry(ids[i], requests[ids[i]].user.value)
  {
    seq(|ids|, i requires 0 <= i < |ids| => assert ids[i] in ids; Entry(ids[i], requests[ids[i]].user.value))
  }

  /** One deletion, of the account and into the request as they were read. */
  function Write(w: World, e: Entry, succeeds: bool, now: Time): World {
    if e.id >= |w.requests| then w
    else if succeeds then
      w.(active := w.active - {e.user},
         requests := Orphan(w.requests, e.user)[e.id := Settled(w.requests[e.id], now)])
    else w.(requests := w.requests[e.id := w.requests[e.id].(status := Failed)])
  }

  function Do(f: Floor, m: Moment): Floor {
    match m.move
    case View(e) =>
      if e.StartPurge? || e.PurgeNext? then f else f.(world := Step(f.world, Timed(e, m.now)))
    case Begin(k) =>
      if k in f.batches then f
      else
        var ids := DueIds(f.world.requests, m.now, |f.world.requests|);
        f.(batches := f.batches[k := Listed(f.world.requests, ids)])
    case Next(k, succeeds) =>
      if k !in f.batches || f.batches[k] == [] then f
      else Floor(Write(f.world, f.batches[k][0], succeeds, m.now), f.batches[k := f.batches[k][1..]])
    case Lose(k) => f.(batches := f.batches - {k})
  }

  function Play(f: Floor, run: seq<Moment>): Floor
    decreases |run|
  {
    if run == [] then f else Play(Do(f, run[0]), run[1..])
  }

  ghost predicate InOrder(from: Time, run: seq<Moment>)
    decreases |run|
  {
    run == [] || (from <= run[0].now && InOrder(run[0].now, run[1..]))
  }

  function LastReading(from: Time, run: seq<Moment>): Time {
    if run == [] then from else run[|run| - 1].now
  }

  // --------------------------------------------------------------------- the invariant

  predicate HasEntry(f: Floor, k: nat, i: nat) {
    k in f.batches && i < |f.batches[k]|
  }

  /** If its request is still pending, it is due, and the account is the one it was read with. */
  ghost predicate EntryOk(w: World, e: Entry, now: Time) {
    && e.id < |w.requests|
    && (w.requests[e.id].status == Pending ==> Due(w.requests[e.id], now) && w.requests[e.id].user == Some(e.user))
  }

  ghost predicate Tracked(f: Floor, now: Time) {
    forall k: nat, i: nat | HasEntry(f, k, i) :: EntryOk(f.world, f.batches[k][i], now)
  }

  ghost predicate Base(f: Floor, now: Time) {
    f.world.batch == [] && Inv(f.world, now) && Tracked(f, now)
  }

  /** The deletion, if the move is one, is of a request that is still pending. */
  predicate EndsPending(f: Floor, m: Moment) {
    m.move.Next? && HasEntry(f, m.move.k, 0) && f.batches[m.move.k][0].id < |f.world.requests| ==>
      f.world.requests[f.batches[m.move.k][0].id].status == Pending
  }

  ghost predicate EndsPendingThroughout(f: Floor, run: seq<Moment>)
    decreases |run|
  {
    run == [] || (EndsPending(f, run[0]) && EndsPendingThroughout(Do(f, run[0]), run[1..]))
  }

  /** What was settled stays as it was settled. */
  ghost predicate KeepsOutcomes(a: World, b: World) {
    && |a.requests| <= |b.requests|
    && forall i | 0 <= i < |a.requests| && a.requests[i].status != Pending ::
         && b.requests[i].status == a.requests[i].status
         && b.requests[i].canceledAt == a.requests[i].canceledAt
         && b.requests[i].completedAt == a.requests[i].completedAt
  }

  /** A deletion of a pending request is a step of a purge that has only it to do. */
  lemma {:induction false} WriteIsStep(w: World, e: Entry, succeeds: bool, now: Time, before: Time)
    requires w.batch == [] && Inv(w, before) && before <= now
    requires EntryOk(w, e, before) && w.requests[e.id].status == Pending
    ensures var one := w.(batch := [e.id]);
      Inv(one, before) && Step(one, Timed(PurgeNext(succeeds), now)) == Write(w, e, succeeds, now)
  {
  }

  lemma {:induction false} WriteKeepsInv(w: World, e: Entry, succeeds: bool, now: Time, before: Time)
    requires w.batch == [] && Inv(w, before) && before <= now
    requires EntryOk(w, e, before) && w.requests[e.id].status == Pending
    ensures var w' := Write(w, e, succeeds, now); w'.batch == [] && Inv(w', now)
  {
    WriteIsStep(w, e, succeeds, now, before);
    StepKeepsInv(w.(batch := [e.id]), Timed(PurgeNext(succeeds), now), before);
  }

  /** What a move on a pending request does to one row. */
  lemma {:induction false} MoveRow(f: Floor, m: Moment, before: Time, i: nat)
    requires Base(f, before) && before <= m.now && EndsPending(f, m) && i < |f.world.requests|
    ensures i < |Do(f, m).world.requests|
    ensures var a, b := f.world.requests[i], Do(f, m).world.requests[i];
      && b.scheduledFor == a.scheduledFor
      && (b.user == a.user || (b.user == None && b.status != Pending))
      && (a.status != Pending ==>
            b.status == a.status && b.canceledAt == a.canceledAt && b.completedAt == a.completedAt)
  {
    match m.move
    case View(e) => RowStep(f.world, Timed(e, m.now), before, i);
    case Next(k, succeeds) =>
      if HasEntry(f, k, 0) {
        var e := f.batches[k][0];
        assert EntryOk(f.world, e, before);
        WriteIsStep(f.world, e, succeeds, m.now, before);
        RowStep(f.world.(batch := [e.id]), Timed(PurgeNext(succeeds), m.now), before, i);
      }
    case _ =>
  }

  lemma {:induction false} MoveKeepsEntry(f: Floor, m: Moment, before: Time, e: Entry)
    requires Base(f, before) && before <= m.now && EndsPending(f, m) && EntryOk(f.world, e, before)
    ensures EntryOk(Do(f, m).world, e, m.now)
  {
    MoveRow(f, m, before, e.id);
  }

  lemma {:induction false} MoveKeepsWorld(f: Floor, m: Moment, before: Time)
    requires Base(f, before) && before <= m.now && EndsPending(f, m)
    ensures var w' := Do(f, m).world; w'.batch == [] && Inv(w', m.now)
  {
    match m.move
    case View(e) => StepKeepsInv(f.world, Timed(e, m.now), before);
    case Next(k, succeeds) =>
      if HasEntry(f, k, 0) {
        assert EntryOk(f.world, f.batches[k][0], before);
        WriteKeepsInv(f.world, f.batches[k][0], succeeds, m.now, before);
      } else {
        TimePasses(f.world, before, m.now);
      }
    case _ => TimePasses(f.world, before, m.now);
  }

  lemma {:induction false} TimePasses(w: World, before: Time, now: Time)
    requires Inv(w, before) && before <= now
    ensures Inv(w, now)
  {
    forall i | 0 <= i < |w.requests| ensures RowOk(w, w.requests[i], now) { assert RowOk(w, w.requests[i], before); }
  }

  /** Where an entry after a move was before it. */
  lemma {:induction false} MoveKeepsTracked(f: Floor, m: Moment, before: Time, k: nat, i: nat)
    requires Base(f, before) && before <= m.now && EndsPending(f, m) && HasEntry(Do(f, m), k, i)
    ensures EntryOk(Do(f, m).world, Do(f, m).batches[k][i], m.now)
  {
    var e := Do(f, m).batches[k][i];
    if m.move.Begin? && k == m.move.k && k !in f.batches {
      var ids := DueIds(f.world.requests, m.now, |f.world.requests|);
      assert e == Listed(f.world.requests, ids)[i] && ids[i] in ids;
    } else {
      var j := if m.move.Next? && k == m.move.k && f.batches[k] != [] then i + 1 else i;
      assert HasEntry(f, k, j) && e == f.batches[k][j];
      MoveKeepsEntry(f, m, before, e);
    }
  }

  /** As long as deletions fall on pending requests, all is as with one purge. */
  lemma {:induction false} MoveKeepsBase(f: Floor, m: Moment, before: Time)
    requires Base(f, before) && before <= m.now && EndsPending(f, m)
    ensures Base(Do(f, m), m.now) && KeepsOutcomes(f.world, Do(f, m).world)
  {
    MoveKeepsWorld(f, m, before);
    forall k: nat, i: nat | HasEntry(Do(f, m), k, i) ensures EntryOk(Do(f, m).world, Do(f, m).batches[k][i], m.now) {
      MoveKeepsTracked(f, m, before, k, i);
    }
    forall i | 0 <= i < |f.world.requests|
      ensures i < |Do(f, m).world.requests|
      ensures var a, b := f.world.requests[i], Do(f, m).world.requests[i];
        a.status != Pending ==>
          b.status == a.status && b.canceledAt == a.canceledAt && b.completedAt == a.completedAt
    {
      MoveRow(f, m, before, i);
    }
    MoveGrows(f, m);
  }

  lemma {:induction false} MoveGrows(f: Floor, m: Moment)
    ensures |f.world.requests| <= |Do(f, m).world.requests|
  {
  }

  lemma {:induction false} PlayKeepsBase(f: Floor, run: seq<Moment>, before: Time)
    requires Base(f, before) && InOrder(before, run) && EndsPendingThroughout(f, run)
    ensures Base(Play(f, run), LastReading(before, run))
    decreases |run|
  {
    if run != [] {
      MoveKeepsBase(f, run[0], before);
      PlayKeepsBase(Do(f, run[0]), run[1..], run[0].now);
    }
  }

  // -------------------------------------------------------------- which purges are safe

  /** Every request on a list is still pending, and on no list twice. */
  ghost predicate Exclusive(f: Floor) {
    && (forall k: nat, i: nat | HasEntry(f, k, i) ::
          var id := f.batches[k][i].id; id < |f.world.requests| && f.world.requests[id].status == Pending)
    && (forall k: nat, i: nat, l: nat, j: nat | HasEntry(f, k, i) && HasEntry(f, l, j) && (k != l || i != j) ::
          f.batches[k][i].id != f.batches[l][j].id)
  }

  predicate NoPurge(f: Floor) {
    forall k | k in f.batches :: f.batches[k] == []
  }

  /** From here on no purge starts while another is under way. */
  ghost predicate OneAtATime(f: Floor, run: seq<Moment>)
    decreases |run|
  {
    run == [] || ((run[0].move.Begin? ==> NoPurge(f)) && OneAtATime(Do(f, run[0]), run[1..]))
  }

  ghost predicate FinalThroughout(f: Floor, run: seq<Moment>)
    decreases |run|
  {
    run == [] ||
    (KeepsOutcomes(f.world, Do(f, run[0]).world) && FinalThroughout(Do(f, run[0]), run[1..]))
  }

  /** A pending request that the move does not delete is left as it is. */
  lemma {:induction false} OthersStayDue(f: Floor, m: Moment, before: Time, e: Entry)
    requires Base(f, before) && before <= m.now && EndsPending(f, m)
    requires EntryOk(f.world, e, before) && f.world.requests[e.id].status == Pending
    requires m.move.Next? && HasEntry(f, m.move.k, 0) ==> f.batches[m.move.k][0].id != e.id
    ensures e.id < |Do(f, m).world.requests| && Do(f, m).world.requests[e.id].status == Pending
  {
    match m.move
    case View(event) =>
      if !event.StartPurge? && !event.PurgeNext? { DueStaysDue(f.world, Timed(event, m.now), before, e.id); }
    case Next(k, succeeds) =>
      if HasEntry(f, k, 0) {
        var head := f.batches[k][0];
        assert EntryOk(f.world, head, before);
        WriteIsStep(f.world, head, succeeds, m.now, before);
        DueStaysDue(f.world.(batch := [head.id]), Timed(PurgeNext(succeeds), m.now), before, e.id);
      }
    case _ =>
  }

  /** Where entry (k, i) after the move was before it, unless a purge just listed it. */
  function Was(f: Floor, m: Moment, k: nat, i: nat): nat {
    if m.move.Next? && k == m.move.k && k in f.batches && f.batches[k] != [] then i + 1 else i
  }

  lemma {:induction false} ExclusiveEntry(f: Floor, m: Moment, before: Time, k: nat, i: nat)
    requires Base(f, before) && before <= m.now && Exclusive(f) && HasEntry(Do(f, m), k, i)
    requires !(m.move.Begin? && m.move.k !in f.batches)
    ensures HasEntry(f, k, Was(f, m, k, i)) && Do(f, m).batches[k][i] == f.batches[k][Was(f, m, k, i)]
    ensures var id := Do(f, m).batches[k][i].id;
      id < |Do(f, m).world.requests| && Do(f, m).world.requests[id].status == Pending
  {
    var j := Was(f, m, k, i);
    assert HasEntry(f, k, j);
    var e := f.batches[k][j];
    assert EntryOk(f.world, e, before);
    if m.move.Next? && HasEntry(f, m.move.k, 0) {
      assert (k != m.move.k || j != 0) && f.batches[m.move.k][0].id != e.id;
    }
    OthersStayDue(f, m, before, e);
  }

  lemma {:induction false} BeginIsExclusive(f: Floor, k: nat, now: Time)
    requires NoPurge(f) && k !in f.batches
    ensures Exclusive(Do(f, Moment(Begin(k), now)))
  {
    var f' := Do(f, Moment(Begin(k), now));
    var ids := DueIds(f.world.requests, now, |f.world.requests|);
    assert forall l | l in f.batches :: f'.batches[l] == f.batches[l] == [];
    assert forall i: nat | HasEntry(f', k, i) :: f'.batches[k][i].id == ids[i] && ids[i] in ids;
  }

  lemma {:induction false} MoveKeepsExclusive(f: Floor, m: Moment, before: Time)
    requires Base(f, before) && before <= m.now && Exclusive(f) && (m.move.Begin? ==> NoPurge(f))
    ensures EndsPending(f, m) && Exclusive(Do(f, m))
  {
    if m.move.Begin? && m.move.k !in f.batches {
      BeginIsExclusive(f, m.move.k, m.now);
    } else {
      var f' := Do(f, m);
      forall k: nat, i: nat | HasEntry(f', k, i)
        ensures HasEntry(f, k, Was(f, m, k, i)) && f'.batches[k][i] == f.batches[k][Was(f, m, k, i)]
        ensures var id := f'.batches[k][i].id; id < |f'.world.requests| && f'.world.requests[id].status == Pending
      {
        ExclusiveEntry(f, m, before, k, i);
      }
    }
  }

  lemma {:induction false} ExclusiveStaysFinal(f: Floor, run: seq<Moment>, before: Time)
    requires Base(f, before) && Exclusive(f) && InOrder(before, run) && OneAtATime(f, run)
    ensures FinalThroughout(f, run)
    decreases |run|
  {
    if run != [] {
      MoveKeepsExclusive(f, run[0], before);
      MoveKeepsBase(f, run[0], before);
      ExclusiveStaysFinal(Do(f, run[0]), run[1..], run[0].now);
    }
  }

  // --------------------------------------------------------------------- and only those

  ghost predicate StaysFinal(f: Floor, from: Time) {
    forall run | InOrder(from, run) && OneAtATime(f, run) :: FinalThroughout(f, run)
  }

  lemma {:induction false} StaysFinalStep(f: Floor, from: Time, m: Moment)
    requires StaysFinal(f, from) && from <= m.now && !m.move.Begin?
    ensures KeepsOutcomes(f.world, Do(f, m).world) && StaysFinal(Do(f, m), m.now)
  {
    forall run | InOrder(m.now, run) && OneAtATime(Do(f, m), run)
      ensures KeepsOutcomes(f.world, Do(f, m).world) && FinalThroughout(Do(f, m), run)
    {
      var longer := [m] + run;
      assert longer[1..] == run;
      assert InOrder(from, longer) && OneAtATime(f, longer);
    }
    assert InOrder(m.now, []) && OneAtATime(Do(f, m), []);
  }

  /** A deletion that falls on a settled request can be made to change its outcome. */
  lemma {:induction false} HeadBreaks(f: Floor, from: Time, k: nat)
    requires HasEntry(f, k, 0) && f.batches[k][0].id < |f.world.requests|
    requires f.world.requests[f.batches[k][0].id].status != Pending
    ensures !StaysFinal(f, from)
  {
    var id := f.batches[k][0].id;
    var m := Moment(Next(k, f.world.requests[id].status != Completed), from);
    assert Do(f, m).world.requests[id].status != f.world.requests[id].status;
    if StaysFinal(f, from) { StaysFinalStep(f, from, m); }
  }

  /** A successful deletion leaves settled what was settled, and settles its own request. */
  lemma {:induction false} SuccessSettles(f: Floor, k: nat, now: Time, id: nat)
    requires HasEntry(f, k, 0) && id < |f.world.requests|
    requires f.world.requests[id].status != Pending || id == f.batches[k][0].id
    ensures var w := Do(f, Moment(Next(k, true), now)).world;
      id < |w.requests| && w.requests[id].status != Pending
  {
  }

  lemma {:induction false} SettledEntryBreaks(f: Floor, from: Time, k: nat, i: nat)
    requires HasEntry(f, k, i) && f.batches[k][i].id < |f.world.requests|
    requires f.world.requests[f.batches[k][i].id].status != Pending
    ensures !StaysFinal(f, from)
    decreases i
  {
    if i == 0 {
      HeadBreaks(f, from, k);
    } else {
      var m := Moment(Next(k, true), from);
      SuccessSettles(f, k, from, f.batches[k][i].id);
      SettledEntryBreaks(Do(f, m), from, k, i - 1);
      if StaysFinal(f, from) { StaysFinalStep(f, from, m); }
    }
  }

  /** A request on two lists, or twice on one: the first deletion settles it for the second. */
  lemma {:induction false} TwiceListedBreaks(f: Floor, from: Time, k: nat, i: nat, l: nat, j: nat)
    requires HasEntry(f, k, i) && HasEntry(f, l, j) && (k == l ==> i < j)
    requires f.batches[k][i].id == f.batches[l][j].id < |f.world.requests|
    ensures !StaysFinal(f, from)
    decreases i
  {
    var m := Moment(Next(k, true), from);
    var f' := Do(f, m);
    var j' := if k == l then j - 1 else j;
    assert HasEntry(f', l, j') && f'.batches[l][j'] == f.batches[l][j];
    if i == 0 {
      SuccessSettles(f, k, from, f.batches[k][0].id);
      SettledEntryBreaks(f', from, l, j');
    } else {
      MoveGrows(f, m);
      TwiceListedBreaks(f', from, k, i - 1, l, j');
    }
    if StaysFinal(f, from) { StaysFinalStep(f, from, m); }
  }

  /** Canceled, completed and failed are never left again, in any continuation in which no
      purge starts beside another, exactly when the lists of the purges now under way, and
      of those lost midway, hold only pending requests and none twice. */
  lemma {:induction false} StaysFinalIffExclusive(f: Floor, before: Time)
    requires Base(f, before)
    ensures StaysFinal(f, before) <==> Exclusive(f)
  {
    if Exclusive(f) {
      forall run | InOrder(before, run) && OneAtATime(f, run) ensures FinalThroughout(f, run) {
        ExclusiveStaysFinal(f, run, before);
      }
    } else {
      NotExclusive(f, before);
    }
  }

  lemma {:induction false} NotExclusive(f: Floor, before: Time)
    requires Base(f, before) && !Exclusive(f)
    ensures !StaysFinal(f, before)
  {
    if k: nat, i: nat :| HasEntry(f, k, i) && f.world.requests[f.batches[k][i].id].status != Pending {
      assert EntryOk(f.world, f.batches[k][i], before);
      SettledEntryBreaks(f, before, k, i);
    } else {
      assert forall k: nat, i: nat | HasEntry(f, k, i) :: EntryOk(f.world, f.batches[k][i], before);
      var k: nat, i: nat, l: nat, j: nat :| HasEntry(f, k, i) && HasEntry(f, l, j) && (k != l || i != j) &&
        f.batches[k][i].id == f.batches[l][j].id;
      if k == l && j < i {
        TwiceListedBreaks(f, before, l, j, k, i);
      } else {
        TwiceListedBreaks(f, before, k, i, l, j);
      }
    }
  }

  const IDLE: Floor := Floor(EMPTY, map[])

  /** The same for every state reached, purges overlapping or lost, while deletions fell on
      pending requests. */
  lemma {:induction false} OutcomesLastIffExclusive(run: seq<Moment>, start: Time)
    requires InOrder(start, run) && EndsPendingThroughout(IDLE, run)
    ensures StaysFinal(Play(IDLE, run), LastReading(start, run)) <==> Exclusive(Play(IDLE, run))
  {
    PlayKeepsBase(IDLE, run, start);
    StaysFinalIffExclusive(Play(IDLE, run), LastReading(start, run));
  }

  /** Two purges that read one due request: the first fails on it, and the second completes
      it, account and all. */
  lemma {:induction false} SecondPurgeUndoesFailure(f: Floor, now: Time, k: nat, l: nat)
    requires k !in f.batches && l !in f.batches && k != l
    requires DueIds(f.world.requests, now, |f.world.requests|) != []
    ensures var id := DueIds(f.world.requests, now, |f.world.requests|)[0];
      var both := Do(Do(f, Moment(Begin(k), now)), Moment(Begin(l), now));
      var failed := Do(both, Moment(Next(k, false), now));
      var completed := Do(failed, Moment(Next(l, true), now));
      && id < |failed.world.requests| && failed.world.requests[id].status == Failed
      && id < |completed.world.requests| && completed.world.requests[id].status == Completed
  {
    var ids := DueIds(f.world.requests, now, |f.world.requests|);
    assert ids[0] in ids;
  }
}
