/**
  What each step of an account deletion writes, in terms of the stored fields alone.
*/
module DeletionLaws {
  import opened Common
  import opened AccountDeletion
  import PurgeOverlap

  /** Asking: who is refused, and what an accepted request stores. */
  lemma {:induction false} RequestWrites(w: World, user: nat, confirmed: bool, jti: string, now: Time)
    ensures var w' := Step(w, Timed(Request(user, confirmed, jti), now));
      var pending := exists r | r in w.requests :: r.user == Some(user) && r.status == Pending;
      if user !in w.active || !w.active[user] || !confirmed || pending then w' == w
      else
        var due := now + 7 * 24 * 3600 * 1_000_000;
        && w'.requests == w.requests + [Deletion(Some(user), Pending, now, due, jti, None, None)]
        && w'.active == w.active[user := false]
        && w'.issued == w.issued + {CancelToken(|w.requests|, jti, due - due % 1_000_000)}
        && w'.batch == w.batch
  {
  }

  /** Cancelling: a token is good exactly if it was issued, has not lapsed, is not blank and
      names a pending request by its own secret. */
  lemma {:induction false} CancellableIff(w: World, token: CancelToken, now: Time)
    ensures Cancellable(w, token, now) <==>
      && token in w.issued && now < token.expiry && token.jti != ""
      && token.id < |w.requests| && w.requests[token.id].jti == token.jti && w.requests[token.id].status == Pending
  {
  }

  /** It then settles its own request, switches its account back on, and touches no other
      request and no other account; a bad token changes nothing. */
  lemma {:induction false} CancelWrites(w: World, token: CancelToken, now: Time, before: Time)
    requires Inv(w, before)
    ensures var w' := Step(w, Timed(Cancel(token), now));
      if !Cancellable(w, token, now) then w' == w
      else
        && token.id < |w.requests| && |w'.requests| == |w.requests|
        && (forall i | 0 <= i < |w.requests| ::
              w'.requests[i] == if i == token.id then w.requests[i].(status := Canceled, canceledAt := Some(now))
                                else w.requests[i])
        && w.requests[token.id].user.Some?
        && (var user := w.requests[token.id].user.value;
            user in w.active && w'.active == w.active[user := true])
        && w'.issued == w.issued && w'.batch == w.batch
  {
    if Cancellable(w, token, now) { assert RowOk(w, w.requests[token.id], before); }
  }

  /** A request and then its cancellation give the accounts back as they were. */
  lemma {:induction false} CancellingUndoes(w: World, user: nat, jti: string, now: Time, later: Time)
    requires user in w.active && w.active[user] && !HasPending(w.requests, user) && jti != ""
    requires later < now + 7 * 24 * 3600 * 1_000_000 - 1_000_000
    ensures var asked := Step(w, Timed(Request(user, true, jti), now));
      var token := CreateCancelToken(asked.requests, |w.requests|);
      var undone := Step(asked, Timed(Cancel(token), later));
      && Cancellable(asked, token, later)
      && undone.active == w.active
      && undone.requests == w.requests + [
           Deletion(Some(user), Canceled, now, now + 7 * 24 * 3600 * 1_000_000, jti, Some(later), None)]
  {
    RequestWrites(w, user, true, jti, now);
    var asked := Step(w, Timed(Request(user, true, jti), now));
    var token := CreateCancelToken(asked.requests, |w.requests|);
    assert Cancellable(asked, token, later);
    assert w.active[user := false][user := true] == w.active;
  }

  /** The purge's list: every request that is pending, due and has its account, once, the
      newest first. */
  lemma {:induction false} DueNewestFirst(requests: seq<Deletion>, now: Time, n: nat)
    requires n <= |requests|
    ensures var ids := DueIds(requests, now, n);
      && (forall i: nat :: i in ids <==>
            i < n && requests[i].status == Pending && requests[i].scheduledFor <= now && requests[i].user.Some?)
      && Falling(ids)
  {
    if n > 0 {
      DueNewestFirst(requests, now, n - 1);
      var rest := DueIds(requests, now, n - 1);
      FallingCons(n - 1, rest);
    }
  }

  lemma {:induction false} FallingCons(x: nat, rest: seq<nat>)
    requires Falling(rest) && forall i | i in rest :: i < x
    ensures Falling([x] + rest)
  {
    assert forall k | 0 <= k < |rest| :: rest[k] in rest;
  }

  ghost predicate Falling(ids: seq<nat>) {
    forall i, j | 0 <= i < j < |ids| :: ids[i] > ids[j]
  }

  /** One deletion of a purge: which requests and accounts it changes, and how. */
  lemma {:induction false} PurgeWrites(w: World, succeeds: bool, now: Time, before: Time)
    requires Inv(w, before) && w.batch != [] && before <= now
    ensures var w' := Step(w, Timed(PurgeNext(succeeds), now)); var id := w.batch[0];
      && id < |w.requests| && w.requests[id].user.Some? && |w'.requests| == |w.requests|
      && w'.batch == w.batch[1..] && w'.issued == w.issued
      && (var user := w.requests[id].user;
          && w'.active == (if succeeds then w.active - {user.value} else w.active)
          && forall i | 0 <= i < |w.requests| ::
               w'.requests[i] ==
                 if i == id then
                   if succeeds then w.requests[i].(user := None, status := Completed, completedAt := Some(now))
                   else w.requests[i].(status := Failed)
                 else if succeeds && w.requests[i].user == user then w.requests[i].(user := None)
                 else w.requests[i])
  {
    assert w.batch[0] in w.batch;
  }

  /** The same for a purge beside others, on the request and the account as it read them. */
  lemma {:induction false} OverlappingPurgeWrites(w: World, e: PurgeOverlap.Entry, succeeds: bool, now: Time, i: nat)
    requires e.id < |w.requests| && i < |w.requests|
    ensures var w' := PurgeOverlap.Write(w, e, succeeds, now);
      && |w'.requests| == |w.requests| && w'.batch == w.batch && w'.issued == w.issued
      && w'.active == (if succeeds then w.active - {e.user} else w.active)
      && w'.requests[i] ==
           if i == e.id then
             if succeeds then w.requests[i].(user := None, status := Completed, completedAt := Some(now))
             else w.requests[i].(status := Failed)
           else if succeeds && w.requests[i].user == Some(e.user) then w.requests[i].(user := None)
           else w.requests[i]
  {
  }

  /** It starts with the due requests, newest first, each with its account. */
  lemma {:induction false} OverlappingPurgeLists(f: PurgeOverlap.Floor, k: nat, now: Time, i: nat)
    requires k !in f.batches && i < |DueIds(f.world.requests, now, |f.world.requests|)|
    ensures var f' := PurgeOverlap.Do(f, PurgeOverlap.Moment(PurgeOverlap.Begin(k), now));
      var ids := DueIds(f.world.requests, now, |f.world.requests|);
      && f'.world == f.world && f'.batches.Keys == f.batches.Keys + {k} && |f'.batches[k]| == |ids|
      && (forall l | l in f.batches :: f'.batches[l] == f.batches[l])
      && f'.batches[k][i].id == ids[i] < |f.world.requests|
      && f.world.requests[ids[i]].user == Some(f'.batches[k][i].user)
  {
    assert DueIds(f.world.requests, now, |f.world.requests|)[i] in DueIds(f.world.requests, now, |f.world.requests|);
  }

  /** The deletions a purge reports are its successful attempts, counted one by one. */
  lemma {:induction false} SuccessesCount(attempts: seq<Attempt>, a: Attempt)
    ensures Successes([]) == 0
    ensures Successes(attempts + [a]) == Successes(attempts) + if a.succeeds then 1 else 0
  {
    assert (attempts + [a])[..|attempts|] == attempts;
  }

  /** Starting a purge lists the due requests and changes nothing else; registering and
      switching an account touch that account. */
  lemma {:induction false} OtherWrites(w: World, user: nat, active: bool, now: Time)
    ensures Step(w, Timed(StartPurge, now)) ==
      if w.batch == [] then w.(batch := DueIds(w.requests, now, |w.requests|)) else w
    ensures Step(w, Timed(Register(user), now)) == if user in w.active then w else w.(active := w.active[user := true])
    ensures Step(w, Timed(SetActive(user, active), now)) ==
      if user in w.active then w.(active := w.active[user := active]) else w
  {
  }
}
