/**
  The rotation stamp under concurrent refreshes. A rotation is written without looking at the
  stored row again, so every refresh that read the row live writes its own stamp, and the
  window of the token moves with it.
*/
module StampInterleaving {
  import opened Common
  import opened RefreshRotation
  import opened RefreshInterleaving

  /** The request has read the row live and goes on to write its stamp. */
  predicate WillRotate(st: Setting, w: World, p: nat)
    requires p in st.plan && p in w.procs
  {
    match w.procs[p]
    case Fetched(row) => Decide(st, row, st.plan[p].decide).Rotating?
    case Rotating(_) => true
    case _ => false
  }

  /** The presented token is stored and revoked, and new tokens get new numbers. */
  ghost predicate Rotated(st: Setting, w: World) {
    && st.raw in w.rows && w.rows[st.raw].revoked
    && w.procs.Keys == st.plan.Keys && (forall t | t in w.rows :: t < w.nextToken)
  }

  /** No request is about to write another stamp than the one stored. */
  ghost predicate Anchored(st: Setting, w: World)
    requires Rotated(st, w)
  {
    forall p | p in st.plan && WillRotate(st, w, p) :: w.rows[st.raw].lastUsed == Some(st.plan[p].decide)
  }

  // --------------------------------------------------------------- when the stamp stays

  lemma {:induction false} AnchoredAccess(st: Setting, w: World, p: nat)
    requires Rotated(st, w) && Anchored(st, w) && p in st.plan
    ensures var w' := Access(st, w, p);
      Rotated(st, w') && Anchored(st, w') && w'.rows[st.raw].lastUsed == w.rows[st.raw].lastUsed
  {
    var w' := Access(st, w, p);
    assert WillRotate(st, w, p) ==> w.rows[st.raw].lastUsed == Some(st.plan[p].decide);
    forall q | q in st.plan && WillRotate(st, w', q) ensures WillRotate(st, w, q) {
      if q != p { assert w'.procs[q] == w.procs[q]; }
    }
  }

  lemma {:induction false} AnchoredExec(st: Setting, w: World, schedule: seq<nat>)
    requires Rotated(st, w) && Anchored(st, w)
    ensures var w' := Exec(st, w, schedule);
      Rotated(st, w') && Anchored(st, w') && w'.rows[st.raw].lastUsed == w.rows[st.raw].lastUsed
    decreases |schedule|
  {
    if schedule != [] {
      var p := schedule[0];
      if p in st.plan {
        AnchoredAccess(st, w, p);
        AnchoredExec(st, Access(st, w, p), schedule[1..]);
      } else {
        AnchoredExec(st, w, schedule[1..]);
      }
    }
  }

  /** A request about to rotate writes its stamp within two accesses. */
  lemma {:induction false} RotatorStamps(st: Setting, w: World, p: nat) returns (schedule: seq<nat>)
    requires Rotated(st, w) && p in st.plan && WillRotate(st, w, p)
    ensures var w' := Exec(st, w, schedule);
      st.raw in w'.rows && w'.rows[st.raw].lastUsed == Some(st.plan[p].decide)
  {
    var w1 := Access(st, w, p);
    if w.procs[p].Rotating? {
      schedule := [p] + [];
      ExecCons(st, w, p, []);
    } else {
      schedule := [p] + ([p] + []);
      ExecCons(st, w, p, [p] + []);
      ExecCons(st, w1, p, []);
    }
  }

  /** The stamp of a rotated token is never moved again, in any interleaving, exactly when
      every request about to rotate carries the reading it was stamped with. */
  lemma {:induction false} StampStaysIff(st: Setting, w: World)
    requires Rotated(st, w)
    ensures (forall schedule :: Stamped(st, Exec(st, w, schedule), w.rows[st.raw].lastUsed)) <==> Anchored(st, w)
  {
    if Anchored(st, w) {
      forall schedule ensures Stamped(st, Exec(st, w, schedule), w.rows[st.raw].lastUsed) {
        AnchoredExec(st, w, schedule);
      }
    } else {
      var p :| p in st.plan && WillRotate(st, w, p) && w.rows[st.raw].lastUsed != Some(st.plan[p].decide);
      var schedule := RotatorStamps(st, w, p);
      assert !Stamped(st, Exec(st, w, schedule), w.rows[st.raw].lastUsed);
    }
  }

  predicate Stamped(st: Setting, w: World, stamp: Option<Time>) {
    st.raw in w.rows && w.rows[st.raw].lastUsed == stamp
  }

  // -------------------------------------------------------------------- the window holds

  /** How far a request that had not begun at the anchored world can have come. */
  ghost predicate OnAnchor(st: Setting, anchor: Row, w: World, p: nat)
    requires p in st.plan && p in w.procs
  {
    match w.procs[p]
    case Fetched(row) => row.revoked && row.lastUsed == anchor.lastUsed
    case Rotating(_) => false
    case Creating(_) => WithinGrace(st.config, anchor, st.plan[p].decide)
    case Done(_) => WithinGrace(st.config, anchor, st.plan[p].decide)
    case _ => true
  }

  lemma {:induction false} OnAnchorExec(st: Setting, anchor: Row, w: World, schedule: seq<nat>, p: nat)
    requires Rotated(st, w) && Anchored(st, w) && w.rows[st.raw].lastUsed == anchor.lastUsed
    requires p in st.plan && OnAnchor(st, anchor, w, p)
    ensures var w' := Exec(st, w, schedule); p in w'.procs && OnAnchor(st, anchor, w', p)
    decreases |schedule|
  {
    if schedule != [] {
      var q := schedule[0];
      if q in st.plan {
        AnchoredAccess(st, w, q);
        OnAnchorExec(st, anchor, Access(st, w, q), schedule[1..], p);
      } else {
        OnAnchorExec(st, anchor, w, schedule[1..], p);
      }
    }
  }

  /** From such a world on the window is anchored: a request that has not begun, or has read
      this stamp, and gets a successor decided within grace of it. */
  lemma {:induction false} AnchoredWindow(st: Setting, w: World, schedule: seq<nat>, p: nat)
    requires Rotated(st, w) && Anchored(st, w) && p in st.plan
    requires w.procs[p].Start? || (w.procs[p].Fetched? && w.procs[p].row == w.rows[st.raw])
    ensures var w' := Exec(st, w, schedule);
      && p in w'.procs
      && (w'.procs[p].Done? ==> WithinGrace(st.config, w.rows[st.raw], st.plan[p].decide))
  {
    OnAnchorExec(st, w.rows[st.raw], w, schedule, p);
  }

  // --------------------------------------------------------------------- the window slides

  lemma {:induction false} Reads(st: Setting, w: World, p: nat)
    requires p in st.plan && p in w.procs && w.procs[p].Start? && st.raw in w.rows
    requires JwtLive(w.rows[st.raw], st.plan[p].verify)
    ensures Exec(st, w, [p]) == w.(procs := w.procs[p := Fetched(w.rows[st.raw])])
  {
    ExecCons(st, w, p, []);
    assert [p] + [] == [p];
  }

  lemma {:induction false} ThreeTurns(st: Setting, w: World, p: nat)
    requires p in st.plan && p in w.procs
    ensures Exec(st, w, [p, p, p]) == Access(st, Access(st, Access(st, w, p), p), p)
  {
    var w1 := Access(st, w, p);
    ExecCons(st, w, p, [p, p]);
    ExecCons(st, w1, p, [p]);
    ExecCons(st, Access(st, w1, p), p, []);
    assert [p] + [p, p] == [p, p, p] && [p] + [p] == [p, p] && [p] + [] == [p];
  }

  /** A request that holds a live copy rotates and issues, whatever is stored by then. */
  lemma {:induction false} HolderRotates(st: Setting, w: World, p: nat)
    requires p in st.plan && p in w.procs && w.procs[p].Fetched?
    requires Decide(st, w.procs[p].row, st.plan[p].decide) == Rotating(w.procs[p].row)
    requires st.raw in w.rows && st.raw < w.nextToken
    ensures var w' := Exec(st, w, [p, p, p]);
      && w'.procs == w.procs[p := Done(w.nextToken)] && w'.nextToken == w.nextToken + 1
      && st.raw in w'.rows
      && w'.rows[st.raw] == w.rows[st.raw].(revoked := true, lastUsed := Some(st.plan[p].decide))
  {
    ThreeTurns(st, w, p);
    var w1 := Access(st, w, p);
    assert w1.procs[p] == Rotating(w.procs[p].row) && w1.rows == w.rows;
    var w2 := Access(st, w1, p);
    assert w2.procs[p] == Creating(w.procs[p].row) && w2.nextToken == w.nextToken;
  }

  /** A request that finds the token within its window issues. */
  lemma {:induction false} NewcomerForks(st: Setting, w: World, p: nat)
    requires p in st.plan && p in w.procs && w.procs[p].Start? && st.raw in w.rows && st.raw < w.nextToken
    requires JwtLive(w.rows[st.raw], st.plan[p].verify) && w.rows[st.raw].revoked
    requires WithinGrace(st.config, w.rows[st.raw], st.plan[p].decide) && w.rows[st.raw].user in st.users
    ensures Exec(st, w, [p, p, p]).procs == w.procs[p := Done(w.nextToken)]
  {
    ThreeTurns(st, w, p);
    var row := w.rows[st.raw];
    var w1 := Access(st, w, p);
    assert w1.procs[p] == Fetched(row);
    var w2 := Access(st, w1, p);
    assert w2.procs[p] == Creating(row) && w2.nextToken == w.nextToken;
  }

  /** Two requests that read the row before either writes: both rotate, the later write stays. */
  lemma {:induction false} BothRotate(st: Setting, w: World, p: nat, q: nat)
    requires Ready(st, w) && p in st.plan && q in st.plan && p != q
    ensures var w' := Exec(st, w, [p] + [q] + [p, p, p] + [q, q, q]);
      && w'.procs == w.procs[p := Done(w.nextToken)][q := Done(w.nextToken + 1)]
      && st.raw in w'.rows && st.raw < w'.nextToken
      && w'.rows[st.raw] == w.rows[st.raw].(revoked := true, lastUsed := Some(st.plan[q].decide))
  {
    var w1 := Exec(st, w, [p]);
    Reads(st, w, p);
    var w2 := Exec(st, w1, [q]);
    Reads(st, w1, q);
    ExecConcat(st, w, [p], [q]);
    var w3 := Exec(st, w2, [p, p, p]);
    HolderRotates(st, w2, p);
    ExecConcat(st, w, [p] + [q], [p, p, p]);
    HolderRotates(st, w3, q);
    ExecConcat(st, w, [p] + [q] + [p, p, p], [q, q, q]);
  }

  /** So the window slides: a third request, out of the window of the first, is accepted
      within that of the second, although the token was rotated only between them. */
  lemma {:induction false} WindowSlides(st: Setting, w: World, p: nat, q: nat, r: nat)
    requires Ready(st, w) && p in st.plan && q in st.plan && r in st.plan && p != q && p != r && q != r
    requires st.plan[r].decide - st.plan[q].decide <= st.config.grace
    ensures var w' := Exec(st, w, [p] + [q] + [p, p, p] + [q, q, q] + [r, r, r]);
      && p in w'.procs && w'.procs[p].Done? && r in w'.procs && w'.procs[r].Done?
  {
    var start := [p] + [q] + [p, p, p] + [q, q, q];
    BothRotate(st, w, p, q);
    NewcomerForks(st, Exec(st, w, start), r);
    ExecConcat(st, w, start, [r, r, r]);
  }

  /** With a grace of 60 seconds and readings at 0, 50 and 100: the first and the last are
      both accepted, 100 seconds apart. */
  lemma {:induction false} AcceptedHundredSecondsApart(st: Setting, w: World, t: Time)
    requires Ready(st, w) && st.config.grace == 60 * SECOND && {0, 1, 2} <= st.plan.Keys
    requires st.plan[0].decide == t && st.plan[1].decide == t + 50 * SECOND && st.plan[2].decide == t + 100 * SECOND
    ensures var w' := Exec(st, w, [0] + [1] + [0, 0, 0] + [1, 1, 1] + [2, 2, 2]);
      && 0 in w'.procs && w'.procs[0].Done? && 2 in w'.procs && w'.procs[2].Done?
      && st.plan[2].decide - st.plan[0].decide > st.config.grace
  {
    WindowSlides(st, w, 0, 1, 2);
  }

  /** Any two accepted presentations lie within one grace window, in every interleaving,
      exactly when all readings do. */
  lemma {:induction false} AcceptedTogetherIff(st: Setting, w: World)
    requires Ready(st, w)
    ensures (forall schedule :: AcceptedTogether(st, Exec(st, w, schedule))) <==> WithinGraceOfEachOther(st)
  {
    if !WithinGraceOfEachOther(st) {
      var p, q :| p in st.plan && q in st.plan && st.plan[q].decide - st.plan[p].decide > st.config.grace;
      BothRotate(st, w, p, q);
      assert !AcceptedTogether(st, Exec(st, w, [p] + [q] + [p, p, p] + [q, q, q]));
    }
  }

  ghost predicate AcceptedTogether(st: Setting, w: World) {
    forall p, q | p in st.plan.Keys * w.procs.Keys && q in st.plan.Keys * w.procs.Keys ::
      w.procs[p].Done? && w.procs[q].Done? ==> st.plan[q].decide - st.plan[p].decide <= st.config.grace
  }
}
