/**
  What each step of a data export answers and writes, in terms of the stored fields alone.
*/
module ExportLaws {
  import opened Common
  import opened DataExports

  /** A user is refused while an export of theirs is pending or processing, and for 24 hours
      after one became ready. */
  lemma {:induction false} RefusedIff(exports: seq<Export>, user: nat, now: Time)
    ensures Refused(exports, user, now) <==>
      exists i :: 0 <= i < |exports| && exports[i].user == user &&
        (exports[i].status == Pending || exports[i].status == Processing ||
         (exports[i].status == Ready && exports[i].readyAt.Some?
          && exports[i].readyAt.value > now - 24 * 3600 * 1_000_000))
  {
    if Refused(exports, user, now) {
      var e :| e in exports && Blocks(e, user, now);
      var i :| 0 <= i < |exports| && exports[i] == e;
    }
    if i :| 0 <= i < |exports| && Blocks(exports[i], user, now) {
      assert exports[i] in exports;
    }
  }

  lemma {:induction false} RequestWrites(d: Desk, user: nat, now: Time)
    ensures Step(d, Timed(Request(user), now)) ==
      if Refused(d.exports, user, now) then d
      else d.(exports := d.exports + [Export(user, Pending, now, None, false)])
  {
  }

  /** What a task does to its own row; no other row changes. */
  lemma {:induction false} TaskWrites(d: Desk, e: Event, now: Time, id: nat, i: nat)
    requires e == Start(id) || e == Finish(id) || e == Fail(id)
    requires i < |d.exports|
    ensures var d' := Step(d, Timed(e, now));
      && |d'.exports| == |d.exports|
      && d'.exports[i] ==
           if i != id then d.exports[i]
           else if e.Start? && (d.exports[i].status == Pending || d.exports[i].status == Processing) then
             d.exports[i].(status := Processing)
           else if e.Finish? && id in d.running then
             d.exports[i].(status := Ready, readyAt := Some(now), stored := true)
           else if e.Fail? && id in d.running then d.exports[i].(status := Failed)
           else d.exports[i]
  {
  }

  /** The executions under way: a start adds one, an end or a loss takes one away. */
  lemma {:induction false} TaskRuns(d: Desk, e: Event, now: Time, id: nat)
    requires e == Start(id) || e == Finish(id) || e == Fail(id) || e == Lose(id)
    requires id < |d.exports|
    ensures var d' := Step(d, Timed(e, now));
      d'.running ==
        if e.Start? then
          if d.exports[id].status == Pending || d.exports[id].status == Processing then d.running + multiset{id}
          else d.running
        else d.running - multiset{id}
  {
    if id !in d.running { assert d.running - multiset{id} == d.running; }
  }

  lemma {:induction false} LosingWritesNothing(d: Desk, id: nat, now: Time)
    ensures Step(d, Timed(Lose(id), now)).exports == d.exports
  {
  }

  /** An execution ends ready when its archive was built, at that moment, and else failed. */
  lemma {:induction false} ExecutionLeaves(d: Desk, id: nat, started: Time, built: Option<Time>, ended: Time)
    requires id < |d.exports| && (d.exports[id].status == Pending || d.exports[id].status == Processing)
    ensures var d' := Step(Step(d, Timed(Start(id), started)), TaskEnd(id, built, ended));
      && id < |d'.exports| && d'.running == d.running
      && d'.exports[id] ==
           if built.Some? then d.exports[id].(status := Ready, readyAt := built, stored := true)
           else d.exports[id].(status := Failed)
  {
    var d1 := Step(d, Timed(Start(id), started));
    assert d1.exports[id] == d.exports[id].(status := Processing);
    assert d1.running - multiset{id} == d.running;
  }

  /** A failed export no longer stands in its user's way: if nothing else of theirs does, the
      next request is accepted at once. */
  lemma {:induction false} FailureFreesUser(d: Desk, id: nat, now: Time)
    requires id < |d.exports| && id in d.running
    requires forall i | 0 <= i < |d.exports| && i != id :: !Blocks(d.exports[i], d.exports[id].user, now)
    ensures !Refused(Step(d, Timed(Fail(id), now)).exports, d.exports[id].user, now)
  {
    var es := Step(d, Timed(Fail(id), now)).exports;
    forall i | 0 <= i < |es| ensures !Blocks(es[i], d.exports[id].user, now) {
      TaskWrites(d, Fail(id), now, id, i);
    }
  }

  /** A purge expires exactly the ready exports of more than seven days ago whose archive is
      still stored, and only takes the archive from them. */
  lemma {:induction false} PurgeWrites(d: Desk, now: Time, i: nat)
    requires i < |d.exports|
    ensures var d' := Step(d, Timed(Purge, now));
      && |d'.exports| == |d.exports| && d'.running == d.running
      && d'.exports[i] ==
           if d.exports[i].status == Ready && d.exports[i].stored && d.exports[i].readyAt.Some?
              && d.exports[i].readyAt.value < now - 7 * 24 * 3600 * 1_000_000
           then d.exports[i].(status := Expired, stored := false)
           else d.exports[i]
  {
  }
}
