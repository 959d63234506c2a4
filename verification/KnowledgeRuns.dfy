/**
  Processing runs of documents: deliveries of the processing task that wait or are under
  way, how each ends, and the discipline under which the counters always agree.

  An upload, a reprocess and a reindex each queue one delivery. An execution ends by storing
  its chunks, or by failing before or after that transaction; a failed or lost execution
  may be delivered again.
*/
module KnowledgeRuns {
  import opened KnowledgeCounters

  /** `queued` and `running` hold one element per delivery, the document it is for. */
  datatype Work = Work(base: Base, queued: multiset<nat>, running: multiset<nat>)

  datatype Ending =
    | Completes(data: seq<ChunkData>)
    | FailsBefore(again: bool)
    | FailsAfter(data: seq<ChunkData>, again: bool)

  datatype Move = View(event: Event) | Begin(id: nat) | Index(id: nat) | End(id: nat, ending: Ending)

  /** What a move does to the tables. A view never writes a status or stores chunks itself. */
  function Effects(w: Work, m: Move): seq<Event> {
    match m
    case View(e) => if e.SetStatus? || e.Commit? then [] else [e]
    case Begin(id) => if id in w.queued then [SetStatus(id, Processing)] else []
    case Index(id) => if id in w.running then [SetStatus(id, Indexing)] else []
    case End(id, ending) =>
      if id !in w.running then []
      else match ending
        case Completes(data) => [Commit(id, data)]
        case FailsBefore(_) => [SetStatus(id, Failed)]
        case FailsAfter(data, _) => [Commit(id, data), SetStatus(id, Failed)]
  }

  /** The deliveries a move queues. */
  function Queues(w: Work, m: Move): multiset<nat> {
    match m
    case View(Upload(id, file)) =>
      if id !in w.base.docs && UploadOutcome(w.base, file) == Stored then multiset{id} else multiset{}
    case View(Reprocess(id)) => if id in w.base.docs then multiset{id} else multiset{}
    case View(Reindex(id)) => if id in w.base.docs then multiset{id} else multiset{}
    case End(id, FailsBefore(again)) => if id in w.running && again then multiset{id} else multiset{}
    case End(id, FailsAfter(_, again)) => if id in w.running && again then multiset{id} else multiset{}
    case _ => multiset{}
  }

  ghost function Next(w: Work, m: Move): Work {
    var base := Run(w.base, Effects(w, m));
    var queued := w.queued + Queues(w, m);
    match m
    case Begin(id) => if id in w.queued then Work(base, queued - multiset{id}, w.running + multiset{id}) else w
    case End(id, _) => Work(base, queued, w.running - multiset{id})
    case _ => Work(base, queued, w.running)
  }

  ghost function Play(w: Work, moves: seq<Move>): Work
    decreases |moves|
  {
    if moves == [] then w else Play(Next(w, moves[0]), moves[1..])
  }

  /** Everything a run of moves does to the tables. */
  ghost function Trace(w: Work, moves: seq<Move>): seq<Event>
    decreases |moves|
  {
    if moves == [] then [] else Effects(w, moves[0]) + Trace(Next(w, moves[0]), moves[1..])
  }

  function Outstanding(w: Work, id: nat): nat {
    w.queued[id] + w.running[id]
  }

  // --------------------------------------------------------------------- discipline

  /** A document is sent for processing only while no delivery for it is outstanding, and
      an execution that fails after storing its chunks is not delivered again. */
  predicate Disciplined(w: Work, m: Move) {
    match m
    case View(Upload(id, _)) => Outstanding(w, id) == 0
    case View(Reprocess(id)) => Outstanding(w, id) == 0
    case View(Reindex(id)) => Outstanding(w, id) == 0
    case End(_, FailsAfter(_, again)) => !again
    case _ => true
  }

  ghost predicate DisciplinedRun(w: Work, moves: seq<Move>)
    decreases |moves|
  {
    moves == [] || (Disciplined(w, moves[0]) && DisciplinedRun(Next(w, moves[0]), moves[1..]))
  }

  /** Each stored document has at most one delivery outstanding, and none once it has chunks. */
  ghost predicate Tidy(w: Work) {
    forall id | id in w.base.docs ::
      Outstanding(w, id) <= 1 && (Outstanding(w, id) == 1 ==> RowsOf(w.base.chunks, id) == 0)
  }

  ghost predicate Good(w: Work) {
    Agree(w.base) && Tidy(w)
  }

  // ----------------------------------------------------------------- histories in parts

  lemma {:induction false} AgreeConcat(b: Base, first: seq<Event>, second: seq<Event>)
    ensures AgreeThroughout(b, first + second) <==>
      (AgreeThroughout(b, first) && AgreeThroughout(Run(b, first), second))
    decreases |first|
  {
    if first == [] {
      assert first + second == second;
    } else {
      assert (first + second)[1..] == first[1..] + second;
      AgreeConcat(Step(b, first[0]), first[1..], second);
    }
  }

  lemma {:induction false} AgreeOne(b: Base, e: Event)
    requires Agree(b)
    ensures AgreeThroughout(b, [e]) <==> CleanStep(b, e)
    ensures Run(b, [e]) == Step(b, e)
  {
    AgreeStep(b, e);
    assert [e][1..] == [];
    assert Run(Step(b, e), []) == Step(b, e);
  }

  lemma {:induction false} AgreeEnds(b: Base, run: seq<Event>)
    requires AgreeThroughout(b, run)
    ensures Agree(Run(b, run))
    decreases |run|
  {
    if run != [] { AgreeEnds(Step(b, run[0]), run[1..]); }
  }

  // -------------------------------------------------------------- what a good move keeps

  lemma {:induction false} RowsStayGone(b: Base, e: Event, d: nat)
    requires RowsOf(b.chunks, d) == 0 && !(e.Commit? && e.id == d)
    ensures RowsOf(Step(b, e).chunks, d) == 0
  {
    match e
    case Commit(id, data) =>
      RowsConcat(b.chunks, NewChunks(id, data), d);
      RowsUniform(NewChunks(id, data), id, d);
    case Destroy(id) => OutsideRows(b.chunks, {id}, d);
    case BulkDelete(ids) => OutsideRows(b.chunks, b.docs.Keys * ids, d);
    case Reprocess(id) => OutsideRows(b.chunks, {id}, d);
    case Reindex(id) => OutsideRows(b.chunks, {id}, d);
    case _ =>
  }

  /** Views: they store no chunks, and what they send for processing has none. */
  lemma {:induction false} ViewIsGood(w: Work, e: Event)
    requires Good(w) && Disciplined(w, View(e)) && !e.SetStatus? && !e.Commit?
    ensures AgreeThroughout(w.base, [e]) && Good(Next(w, View(e)))
  {
    AgreeOne(w.base, e);
    AgreeStep(w.base, e);
    var w' := Next(w, View(e));
    assert w'.base == Step(w.base, e);
    forall d | d in w'.base.docs
      ensures Outstanding(w', d) <= 1 && (Outstanding(w', d) == 1 ==> RowsOf(w'.base.chunks, d) == 0)
    {
      ViewKeepsTidy(w, e, d);
    }
  }

  lemma {:induction false} ViewKeepsTidy(w: Work, e: Event, d: nat)
    requires Good(w) && Disciplined(w, View(e)) && !e.SetStatus? && !e.Commit? && d in Step(w.base, e).docs
    ensures var n := w.queued[d] + Queues(w, View(e))[d] + w.running[d];
      n <= 1 && (n == 1 ==> RowsOf(Step(w.base, e).chunks, d) == 0)
  {
    if d in w.base.docs {
      if Outstanding(w, d) == 1 { RowsStayGone(w.base, e, d); }
      CountsStep(w.base, e, d);
    } else {
      NoRows(w.base.chunks, d);
      RowsStayGone(w.base, e, d);
    }
  }

  lemma {:induction false} StatusIsGood(b: Base, id: nat, status: Status)
    requires Agree(b)
    ensures AgreeThroughout(b, [SetStatus(id, status)])
    ensures Run(b, [SetStatus(id, status)]) == Step(b, SetStatus(id, status))
    ensures Step(b, SetStatus(id, status)).chunks == b.chunks && Step(b, SetStatus(id, status)).docs.Keys == b.docs.Keys
  {
    AgreeOne(b, SetStatus(id, status));
  }

  lemma {:induction false} CommitIsGood(w: Work, id: nat, data: seq<ChunkData>)
    requires Good(w) && id in w.running
    ensures AgreeThroughout(w.base, [Commit(id, data)])
    ensures Run(w.base, [Commit(id, data)]) == Step(w.base, Commit(id, data))
    ensures Step(w.base, Commit(id, data)).docs.Keys == w.base.docs.Keys
    ensures forall d | d != id && RowsOf(w.base.chunks, d) == 0 :: RowsOf(Step(w.base, Commit(id, data)).chunks, d) == 0
  {
    assert id in w.base.docs ==> Outstanding(w, id) == 1;
    AgreeOne(w.base, Commit(id, data));
    forall d | d != id && RowsOf(w.base.chunks, d) == 0 ensures RowsOf(Step(w.base, Commit(id, data)).chunks, d) == 0 {
      RowsStayGone(w.base, Commit(id, data), d);
    }
  }

  lemma {:induction false} EndIsGood(w: Work, id: nat, ending: Ending)
    requires Good(w) && Disciplined(w, End(id, ending)) && id in w.running
    ensures AgreeThroughout(w.base, Effects(w, End(id, ending))) && Good(Next(w, End(id, ending)))
  {
    var effects := Effects(w, End(id, ending));
    match ending {
      case FailsBefore(_) => StatusIsGood(w.base, id, Failed);
      case Completes(data) => CommitIsGood(w, id, data);
      case FailsAfter(data, _) =>
        CommitIsGood(w, id, data);
        AgreeEnds(w.base, [Commit(id, data)]);
        StatusIsGood(Step(w.base, Commit(id, data)), id, Failed);
        assert effects == [Commit(id, data)] + [SetStatus(id, Failed)];
        AgreeConcat(w.base, [Commit(id, data)], [SetStatus(id, Failed)]);
        RunConcat(w.base, [Commit(id, data)], [SetStatus(id, Failed)]);
    }
    AgreeEnds(w.base, effects);
    EndKeepsTidy(w, id, ending, Run(w.base, effects));
  }

  lemma {:induction false} EndKeepsTidy(w: Work, id: nat, ending: Ending, base: Base)
    requires Tidy(w) && Disciplined(w, End(id, ending)) && id in w.running
    requires base.docs.Keys == w.base.docs.Keys && base == Run(w.base, Effects(w, End(id, ending)))
    requires forall d | d != id && RowsOf(w.base.chunks, d) == 0 :: RowsOf(base.chunks, d) == 0
    requires ending.FailsBefore? ==> base.chunks == w.base.chunks
    ensures Tidy(Next(w, End(id, ending)))
  {
    var w' := Next(w, End(id, ending));
    forall d | d in w'.base.docs
      ensures Outstanding(w', d) <= 1 && (Outstanding(w', d) == 1 ==> RowsOf(w'.base.chunks, d) == 0)
    {
      assert d in w.base.docs && Outstanding(w, d) <= 1;
      assert Outstanding(w', d) == if d == id && !(ending.FailsBefore? && ending.again) then 0 else Outstanding(w, d);
    }
  }

  lemma {:induction false} RunConcat(b: Base, first: seq<Event>, second: seq<Event>)
    ensures Run(b, first + second) == Run(Run(b, first), second)
    decreases |first|
  {
    if first == [] {
      assert first + second == second;
    } else {
      assert (first + second)[1..] == first[1..] + second;
      RunConcat(Step(b, first[0]), first[1..], second);
    }
  }

  lemma {:induction false} MoveIsGood(w: Work, m: Move)
    requires Good(w) && Disciplined(w, m)
    ensures AgreeThroughout(w.base, Effects(w, m)) && Good(Next(w, m))
  {
    if Effects(w, m) == [] {
      assert Run(w.base, []) == w.base;
    } else {
      match m
      case View(e) => ViewIsGood(w, e);
      case Begin(id) => StatusIsGood(w.base, id, Processing); BeginKeepsTidy(w, id);
      case Index(id) => StatusIsGood(w.base, id, Indexing);
      case End(id, ending) => EndIsGood(w, id, ending);
    }
  }

  lemma {:induction false} BeginKeepsTidy(w: Work, id: nat)
    requires Good(w) && id in w.queued
    ensures Good(Next(w, Begin(id)))
  {
    StatusIsGood(w.base, id, Processing);
    AgreeEnds(w.base, [SetStatus(id, Processing)]);
    forall d ensures Outstanding(Next(w, Begin(id)), d) == Outstanding(w, d) {
    }
  }

  /** Runs of a document that never overlap and are not repeated after they stored chunks
      keep every counter in agreement with the tables, in every state. */
  lemma {:induction false} DisciplinedRunsAgree(w: Work, moves: seq<Move>)
    requires Good(w) && DisciplinedRun(w, moves)
    ensures AgreeThroughout(w.base, Trace(w, moves)) && CleanCommits(w.base, Trace(w, moves)) && Good(Play(w, moves))
    ensures Play(w, moves).base == Run(w.base, Trace(w, moves))
    decreases |moves|
  {
    if moves != [] {
      var next := Next(w, moves[0]);
      MoveIsGood(w, moves[0]);
      DisciplinedRunsAgree(next, moves[1..]);
      AgreeConcat(w.base, Effects(w, moves[0]), Trace(next, moves[1..]));
      RunConcat(w.base, Effects(w, moves[0]), Trace(next, moves[1..]));
    }
    AgreeIffCleanCommits(w.base, Trace(w, moves));
  }

  const START: Work := Work(EMPTY, multiset{}, multiset{})

  lemma {:induction false} StartIsGood()
    ensures Good(START)
  {
    assert Sizes(EMPTY.docs, EMPTY.docs.Keys) == map[];
  }

  // ------------------------------------------------------------------- and only those

  /** The counters agree in every state of every disciplined continuation. */
  ghost predicate StaysAgreeing(w: Work) {
    forall moves | DisciplinedRun(w, moves) :: AgreeThroughout(w.base, Trace(w, moves))
  }

  lemma {:induction false} StaysAgreeingStep(w: Work, m: Move)
    requires StaysAgreeing(w) && Disciplined(w, m)
    ensures AgreeThroughout(w.base, Effects(w, m)) && StaysAgreeing(Next(w, m))
  {
    forall moves | DisciplinedRun(Next(w, m), moves)
      ensures AgreeThroughout(w.base, Effects(w, m)) && AgreeThroughout(Next(w, m).base, Trace(Next(w, m), moves))
    {
      var longer := [m] + moves;
      assert longer[1..] == moves;
      assert DisciplinedRun(w, longer) && Trace(w, longer) == Effects(w, m) + Trace(Next(w, m), moves);
      AgreeConcat(w.base, Effects(w, m), Trace(Next(w, m), moves));
    }
    assert DisciplinedRun(Next(w, m), []);
  }

  /** An execution that completes on top of chunks breaks the agreement. */
  lemma {:induction false} CompletingOnChunksBreaks(w: Work, id: nat)
    requires id in w.base.docs && id in w.running && RowsOf(w.base.chunks, id) > 0
    ensures !StaysAgreeing(w)
  {
    if StaysAgreeing(w) {
      StaysAgreeingStep(w, End(id, Completes([])));
      AgreeOne(w.base, Commit(id, []));
    }
  }

  /** So does a waiting delivery, once begun. */
  lemma {:induction false} DeliveryOnChunksBreaks(w: Work, id: nat)
    requires id in w.base.docs && Outstanding(w, id) > 0 && RowsOf(w.base.chunks, id) > 0
    ensures !StaysAgreeing(w)
  {
    if StaysAgreeing(w) {
      if id in w.running {
        CompletingOnChunksBreaks(w, id);
      } else {
        StaysAgreeingStep(w, Begin(id));
        AgreeOne(w.base, SetStatus(id, Processing));
        CompletingOnChunksBreaks(Next(w, Begin(id)), id);
      }
    }
  }

  /** And so do two deliveries: the first to complete leaves chunks to the second. */
  lemma {:induction false} TwoDeliveriesBreak(w: Work, id: nat)
    requires Agree(w.base) && id in w.base.docs && Outstanding(w, id) >= 2 && id in w.running
    requires RowsOf(w.base.chunks, id) == 0
    ensures !StaysAgreeing(w)
  {
    if StaysAgreeing(w) {
      var data := [ChunkData("", 0)];
      var m := End(id, Completes(data));
      StaysAgreeingStep(w, m);
      AgreeOne(w.base, Commit(id, data));
      CountsStep(w.base, Commit(id, data), id);
      DeliveryOnChunksBreaks(Next(w, m), id);
    }
  }

  lemma {:induction false} TwoWaitingBreak(w: Work, id: nat)
    requires Agree(w.base) && id in w.base.docs && Outstanding(w, id) >= 2 && RowsOf(w.base.chunks, id) == 0
    ensures !StaysAgreeing(w)
  {
    if StaysAgreeing(w) {
      if id in w.running {
        TwoDeliveriesBreak(w, id);
      } else {
        StaysAgreeingStep(w, Begin(id));
        StatusIsGood(w.base, id, Processing);
        AgreeEnds(w.base, [SetStatus(id, Processing)]);
        TwoDeliveriesBreak(Next(w, Begin(id)), id);
      }
    }
  }

  /** From a state in which the counters agree, they go on agreeing in every disciplined
      continuation exactly when each document has at most one delivery outstanding, and none
      once it has chunks. */
  lemma {:induction false} StaysAgreeingIffTidy(w: Work)
    requires Agree(w.base)
    ensures StaysAgreeing(w) <==> Tidy(w)
  {
    if Tidy(w) {
      forall moves | DisciplinedRun(w, moves) ensures AgreeThroughout(w.base, Trace(w, moves)) {
        DisciplinedRunsAgree(w, moves);
      }
    } else {
      var id :| id in w.base.docs &&
        !(Outstanding(w, id) <= 1 && (Outstanding(w, id) == 1 ==> RowsOf(w.base.chunks, id) == 0));
      if RowsOf(w.base.chunks, id) > 0 { DeliveryOnChunksBreaks(w, id); } else { TwoWaitingBreak(w, id); }
    }
  }
}
