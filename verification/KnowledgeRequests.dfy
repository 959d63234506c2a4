/**
  Deletions, reprocesses and reindexes that overlap. A deletion and a reprocess fetch the
  document, lock nothing, and debit in a later transaction what they fetched. A reindex
  counts the chunk rows, deletes them, and debits its count, each on its own.
*/
module KnowledgeRequests {
  import opened KnowledgeCounters

  datatype Request = Destroying(id: nat) | Reprocessing(id: nat) | Reindexing(id: nat)

  /** `Owing`: rows were deleted that the counter is still to be debited for. */
  datatype Phase = Start | Holding(doc: Document) | Counted(rows: nat) | Owing(rows: nat) | Over

  datatype Floor = Floor(base: Base, requests: map<nat, Request>, phases: map<nat, Phase>)

  datatype Move = Plain(event: Event) | Turn(r: nat)

  // ------------------------------------------------------------------------- accesses

  function Emptied(b: Base, id: nat): Base
    requires id in b.docs
  {
    b.(docs := b.docs[id := b.docs[id].(chunkCount := 0, status := Pending)], chunks := Outside(b.chunks, {id}))
  }

  /** The deletion's transaction. Deleting a row that is gone already is no error. */
  function DestroyWith(b: Base, id: nat, doc: Document): Base {
    UpdateStats(b.(docs := b.docs - {id}, chunks := Outside(b.chunks, {id})), -1, 0 - doc.chunkCount, 0 - doc.size)
  }

  /** The reprocess's transaction, rolled back if the document is gone. */
  function ReprocessWith(b: Base, id: nat, doc: Document): Base {
    if id !in b.docs then b else UpdateStats(Emptied(b, id), 0, 0 - doc.chunkCount, 0)
  }

  function Fetch(b: Base, request: Request): Phase {
    if request.id !in b.docs then Over
    else if request.Reindexing? then Counted(RowsOf(b.chunks, request.id))
    else Holding(b.docs[request.id])
  }

  /** The next access of request `r`: what it leaves of the tables, and of the request. */
  function Access(b: Base, request: Request, phase: Phase): (Base, Phase) {
    match phase
    case Start => (b, Fetch(b, request))
    case Holding(doc) =>
      if request.Destroying? then (DestroyWith(b, request.id, doc), Over)
      else if request.Reprocessing? then (ReprocessWith(b, request.id, doc), Over)
      else (b, Over)
    case Counted(rows) =>
      if request.id !in b.docs then (b.(chunks := Outside(b.chunks, {request.id})), Over)
      else (Emptied(b, request.id), Owing(rows))
    case Owing(rows) => (UpdateStats(b, 0, 0 - rows, 0), Over)
    case Over => (b, Over)
  }

  ghost function Do(f: Floor, m: Move): Floor {
    match m
    case Plain(e) => f.(base := Step(f.base, e))
    case Turn(r) =>
      if r !in f.requests || r !in f.phases then f
      else
        var (base, phase) := Access(f.base, f.requests[r], f.phases[r]);
        f.(base := base, phases := f.phases[r := phase])
  }

  ghost function Play(f: Floor, run: seq<Move>): Floor
    decreases |run|
  {
    if run == [] then f else Play(Do(f, run[0]), run[1..])
  }

  // --------------------------------------------------------------- agreement up to debits

  ghost function Debts(phases: map<nat, Phase>): map<nat, nat> {
    map r | r in phases && phases[r].Owing? :: phases[r].rows
  }

  /** The base once every debit under way is made. */
  ghost function Debited(f: Floor): Base {
    Shifted(f.base, SumOf(Debts(f.phases)))
  }

  /** All counters agree with the tables, but for the debits that reindexes still owe. */
  ghost predicate AgreeButDebts(f: Floor) {
    Agree(Debited(f))
  }

  /** With no reindex between its deletion and its debit, that is plain agreement. */
  lemma {:induction false} NoDebtsAgree(f: Floor)
    requires AgreeButDebts(f) && forall r | r in f.phases :: !f.phases[r].Owing?
    ensures Agree(f.base)
  {
    assert Debts(f.phases) == map[];
  }

  lemma {:induction false} DebtsChange(phases: map<nat, Phase>, r: nat, phase: Phase)
    requires r in phases
    ensures SumOf(Debts(phases[r := phase])) ==
      SumOf(Debts(phases)) - Debt(phases[r]) + Debt(phase)
  {
    var rest := Debts(phases) - {r};
    assert Debts(phases[r := phase]) - {r} == rest;
    DebtOf(phases, r);
    DebtOf(phases[r := phase], r);
  }

  function Debt(phase: Phase): nat {
    if phase.Owing? then phase.rows else 0
  }

  lemma {:induction false} DebtOf(phases: map<nat, Phase>, r: nat)
    requires r in phases
    ensures SumOf(Debts(phases)) == Debt(phases[r]) + SumOf(Debts(phases) - {r})
  {
    if phases[r].Owing? { SumRemove(Debts(phases), r); } else { assert Debts(phases) - {r} == Debts(phases); }
  }

  // ----------------------------------------------------------- when one access is right

  /** What the request is about to debit is what the tables hold now. */
  predicate Current(b: Base, request: Request, phase: Phase) {
    match phase
    case Holding(doc) =>
      if request.Destroying? then
        request.id in b.docs && doc.chunkCount == b.docs[request.id].chunkCount && doc.size == b.docs[request.id].size
      else if request.Reprocessing? then
        request.id in b.docs ==> doc.chunkCount == b.docs[request.id].chunkCount
      else true
    case Counted(rows) => request.id in b.docs ==> rows == RowsOf(b.chunks, request.id)
    case _ => true
  }

  lemma {:induction false} DestroyIff(b: Base, id: nat, doc: Document)
    requires Agree(b)
    ensures Agree(DestroyWith(b, id, doc)) <==>
      (id in b.docs && doc.chunkCount == b.docs[id].chunkCount && doc.size == b.docs[id].size)
  {
    if id in b.docs { DestroyStoredIff(b, id, doc); } else { DestroyGone(b, id, doc); }
  }

  lemma {:induction false} DestroyStoredIff(b: Base, id: nat, doc: Document)
    requires Agree(b) && id in b.docs
    ensures Agree(DestroyWith(b, id, doc)) <==>
      (doc.chunkCount == b.docs[id].chunkCount && doc.size == b.docs[id].size)
  {
    AgreeStep(b, Destroy(id));
    var b', good := DestroyWith(b, id, doc), Step(b, Destroy(id));
    OtherTotals(good, b', b.docs[id].chunkCount - doc.chunkCount, b.docs[id].size - doc.size);
  }

  lemma {:induction false} OtherTotals(good: Base, b: Base, chunks: int, storage: int)
    requires Agree(good)
    requires b == good.(totalChunks := good.totalChunks + chunks, totalStorage := good.totalStorage + storage)
    ensures Agree(b) <==> chunks == 0 && storage == 0
  {
  }

  lemma {:induction false} DestroyGone(b: Base, id: nat, doc: Document)
    requires Agree(b) && id !in b.docs
    ensures !Agree(DestroyWith(b, id, doc))
  {
    assert b.docs - {id} == b.docs;
  }

  lemma {:induction false} ReprocessIff(b: Base, id: nat, doc: Document)
    requires Agree(b)
    ensures Agree(ReprocessWith(b, id, doc)) <==> (id in b.docs ==> doc.chunkCount == b.docs[id].chunkCount)
  {
    var b' := ReprocessWith(b, id, doc);
    AgreeStep(b, Reprocess(id));
    if id in b.docs {
      var good := Step(b, Reprocess(id));
      assert b' == good.(totalChunks := b'.totalChunks);
      assert b'.totalChunks - good.totalChunks == b.docs[id].chunkCount - doc.chunkCount;
    }
  }

  /** The deletion of a reindex, with its debit counted in. */
  lemma {:induction false} ReindexIff(b: Base, id: nat, rows: nat)
    requires Agree(b) && id in b.docs
    ensures Agree(UpdateStats(Emptied(b, id), 0, 0 - rows, 0)) <==> rows == RowsOf(b.chunks, id)
  {
    var b' := UpdateStats(Emptied(b, id), 0, 0 - rows, 0);
    AgreeStep(b, Reindex(id));
    var good := Step(b, Reindex(id));
    assert b' == good.(totalChunks := b'.totalChunks);
    assert b'.totalChunks - good.totalChunks == RowsOf(b.chunks, id) - rows;
  }

  lemma {:induction false} NobodysChunks(chunks: seq<Chunk>, id: nat)
    requires forall c | c in chunks :: c.document != id
    ensures Outside(chunks, {id}) == chunks
  {
    if chunks != [] {
      assert chunks[0] in chunks && forall c | c in chunks[1..] :: c in chunks;
      NobodysChunks(chunks[1..], id);
    }
  }

  /** The effect of an access on the base with all debits made. */
  ghost function AccessDebited(b: Base, request: Request, phase: Phase): Base {
    match phase
    case Holding(_) => Access(b, request, phase).0
    case Counted(rows) =>
      if request.id in b.docs then UpdateStats(Emptied(b, request.id), 0, 0 - rows, 0)
      else Access(b, request, phase).0
    case _ => b
  }

  lemma {:induction false} TurnDebits(f: Floor, r: nat)
    requires r in f.requests && r in f.phases
    ensures Debited(Do(f, Turn(r))) == AccessDebited(Debited(f), f.requests[r], f.phases[r])
  {
    var phase := Access(f.base, f.requests[r], f.phases[r]).1;
    DebtsChange(f.phases, r, phase);
  }

  lemma {:induction false} AccessIff(b: Base, request: Request, phase: Phase)
    requires Agree(b)
    ensures Agree(AccessDebited(b, request, phase)) <==> Current(b, request, phase)
  {
    match phase
    case Holding(doc) =>
      DestroyIff(b, request.id, doc);
      ReprocessIff(b, request.id, doc);
    case Counted(rows) =>
      if request.id in b.docs { ReindexIff(b, request.id, rows); } else { NobodysChunks(b.chunks, request.id); }
    case _ =>
  }

  /** The events of KnowledgeCounters never look at the chunk counter. */
  lemma {:induction false} StepShifts(b: Base, e: Event, owed: int)
    ensures Step(Shifted(b, owed), e) == Shifted(Step(b, e), owed)
  {
    match e
    case Upload(_, file) => UploadShifts(b, e, owed);
    case BulkDelete(_) => BulkDeleteShifts(b, e, owed);
    case Commit(_, _) => OneShifts(b, e, owed);
    case SetStatus(_, _) => OneShifts(b, e, owed);
    case _ => DebitShifts(b, e, owed);
  }

  function Shifted(b: Base, owed: int): Base {
    b.(totalChunks := b.totalChunks - owed)
  }

  lemma {:induction false} UploadShifts(b: Base, e: Event, owed: int)
    requires e.Upload?
    ensures Step(Shifted(b, owed), e) == Shifted(Step(b, e), owed)
  {
    assert Shifted(b, owed).docs == b.docs;
    assert UploadOutcome(Shifted(b, owed), e.file) == UploadOutcome(b, e.file);
  }

  lemma {:induction false} BulkDeleteShifts(b: Base, e: Event, owed: int)
    requires e.BulkDelete?
    ensures Step(Shifted(b, owed), e) == Shifted(Step(b, e), owed)
  {
    assert Shifted(b, owed).docs == b.docs && Shifted(b, owed).chunks == b.chunks;
  }

  lemma {:induction false} OneShifts(b: Base, e: Event, owed: int)
    requires e.Commit? || e.SetStatus?
    ensures Step(Shifted(b, owed), e) == Shifted(Step(b, e), owed)
  {
    assert Shifted(b, owed).docs == b.docs && Shifted(b, owed).chunks == b.chunks;
  }

  lemma {:induction false} DebitShifts(b: Base, e: Event, owed: int)
    requires e.Destroy? || e.Reprocess? || e.Reindex?
    ensures Step(Shifted(b, owed), e) == Shifted(Step(b, e), owed)
  {
    assert Shifted(b, owed).docs == b.docs && Shifted(b, owed).chunks == b.chunks;
  }

  // ------------------------------------------------------------------------ whole runs

  predicate Right(f: Floor, m: Move) {
    match m
    case Plain(e) => CleanStep(f.base, e)
    case Turn(r) => r in f.requests && r in f.phases ==> Current(f.base, f.requests[r], f.phases[r])
  }

  lemma {:induction false} MoveIff(f: Floor, m: Move)
    requires AgreeButDebts(f)
    ensures AgreeButDebts(Do(f, m)) <==> Right(f, m)
  {
    match m
    case Plain(e) => PlainIff(f, e);
    case Turn(r) => if r in f.requests && r in f.phases { TurnIff(f, r); }
  }

  lemma {:induction false} PlainIff(f: Floor, e: Event)
    requires AgreeButDebts(f)
    ensures AgreeButDebts(Do(f, Plain(e))) <==> CleanStep(f.base, e)
  {
    var owed := SumOf(Debts(f.phases));
    StepShifts(f.base, e, owed);
    assert Debited(Do(f, Plain(e))) == Step(Debited(f), e);
    AgreeStep(Debited(f), e);
  }

  lemma {:induction false} TurnIff(f: Floor, r: nat)
    requires AgreeButDebts(f) && r in f.requests && r in f.phases
    ensures AgreeButDebts(Do(f, Turn(r))) <==> Current(f.base, f.requests[r], f.phases[r])
  {
    TurnDebits(f, r);
    AccessIff(Debited(f), f.requests[r], f.phases[r]);
  }

  ghost predicate AgreeButDebtsThroughout(f: Floor, run: seq<Move>)
    decreases |run|
  {
    AgreeButDebts(f) && (run != [] ==> AgreeButDebtsThroughout(Do(f, run[0]), run[1..]))
  }

  ghost predicate RightThroughout(f: Floor, run: seq<Move>)
    decreases |run|
  {
    run == [] || (Right(f, run[0]) && RightThroughout(Do(f, run[0]), run[1..]))
  }

  /** Over every interleaving: the counters agree with the tables, up to the debits reindexes
      owe, in every state, exactly when each commit finds its document without chunks and
      each transaction debits what the tables then hold. */
  lemma {:induction false} AgreeIffRight(f: Floor, run: seq<Move>)
    requires AgreeButDebts(f)
    ensures AgreeButDebtsThroughout(f, run) <==> RightThroughout(f, run)
    decreases |run|
  {
    if run != [] {
      MoveIff(f, run[0]);
      if AgreeButDebts(Do(f, run[0])) { AgreeIffRight(Do(f, run[0]), run[1..]); }
    }
  }

  // ------------------------------------------------------------------- what would help

  /** The request has read its document and not yet acted on it. */
  predicate Holds(f: Floor, r: nat) {
    r in f.requests && r in f.phases && (f.phases[r].Holding? || f.phases[r].Counted?)
  }

  predicate Touches(e: Event, id: nat) {
    match e
    case Upload(_, _) => false
    case SetStatus(_, _) => false
    case BulkDelete(ids) => id in ids
    case _ => e.id == id
  }

  /** The move changes no document that another request holds, as if each locked its own. */
  ghost predicate Respects(f: Floor, m: Move) {
    match m
    case Plain(e) => forall r: nat | Holds(f, r) :: !Touches(e, f.requests[r].id)
    case Turn(q) => Holds(f, q) ==> forall r: nat | Holds(f, r) && r != q :: f.requests[r].id != f.requests[q].id
  }

  ghost predicate LockedRun(f: Floor, run: seq<Move>)
    decreases |run|
  {
    run == [] || ((run[0].Plain? ==> Right(f, run[0])) && Respects(f, run[0]) && LockedRun(Do(f, run[0]), run[1..]))
  }

  /** What every holder read is still so. */
  ghost predicate AllCurrent(f: Floor) {
    forall r: nat | Holds(f, r) ::
      var request := f.requests[r];
      request.id in f.base.docs && Current(f.base, request, f.phases[r])
  }

  lemma {:induction false} UntouchedStays(b: Base, e: Event, id: nat)
    requires id in b.docs && !Touches(e, id)
    ensures var b' := Step(b, e);
      && id in b'.docs && b'.docs[id].chunkCount == b.docs[id].chunkCount && b'.docs[id].size == b.docs[id].size
      && RowsOf(b'.chunks, id) == RowsOf(b.chunks, id)
  {
    CountsStep(b, e, id);
  }

  lemma {:induction false} OtherAccessStays(b: Base, request: Request, phase: Phase, id: nat)
    requires id in b.docs && ((phase.Holding? || phase.Counted?) ==> request.id != id)
    ensures var b' := Access(b, request, phase).0;
      && id in b'.docs && b'.docs[id].chunkCount == b.docs[id].chunkCount && b'.docs[id].size == b.docs[id].size
      && RowsOf(b'.chunks, id) == RowsOf(b.chunks, id)
  {
    OutsideRows(b.chunks, {request.id}, id);
  }

  lemma {:induction false} MoveKeepsCurrent(f: Floor, m: Move)
    requires AllCurrent(f) && Respects(f, m)
    ensures AllCurrent(Do(f, m))
  {
    var f' := Do(f, m);
    forall r: nat | Holds(f', r)
      ensures f'.requests[r].id in f'.base.docs && Current(f'.base, f'.requests[r], f'.phases[r])
    {
      var id := f.requests[r].id;
      match m
      case Plain(e) => assert Holds(f, r); UntouchedStays(f.base, e, id);
      case Turn(q) =>
        if q != r && q in f.requests && q in f.phases {
          assert Holds(f, r);
          OtherAccessStays(f.base, f.requests[q], f.phases[q], id);
        }
    }
  }

  /** If each request locked its document from its fetch to its transaction, and the commits
      are clean, the counters would agree, up to debits, in every state. */
  lemma {:induction false} LockedRunsAgree(f: Floor, run: seq<Move>)
    requires AgreeButDebts(f) && AllCurrent(f) && LockedRun(f, run)
    ensures AgreeButDebtsThroughout(f, run)
    decreases |run|
  {
    if run != [] {
      assert run[0].Turn? && Holds(f, run[0].r) ==> Right(f, run[0]);
      MoveIff(f, run[0]);
      MoveKeepsCurrent(f, run[0]);
      LockedRunsAgree(Do(f, run[0]), run[1..]);
    }
  }

  /** Two deletions of one document that both fetched it: the second takes a document off the
      counter that is not there. */
  lemma {:induction false} TwoDeletionsDebitTwice(f: Floor, p: nat, q: nat, id: nat)
    requires Agree(f.base) && id in f.base.docs && p != q
    requires p in f.requests && q in f.requests && f.requests[p] == f.requests[q] == Destroying(id)
    requires p in f.phases && q in f.phases && f.phases[p] == f.phases[q] == Start
    ensures var f' := Do(Do(Do(Do(f, Turn(p)), Turn(q)), Turn(p)), Turn(q));
      f'.base.totalDocuments == |f'.base.docs| - 1
  {
    var f1 := Do(f, Turn(p));
    var f2 := Do(f1, Turn(q));
    var doc := f.base.docs[id];
    assert f2.base == f.base && f2.phases[p] == f2.phases[q] == Holding(doc);
    var f3 := Do(f2, Turn(p));
    assert f3.base == DestroyWith(f.base, id, doc) && f3.phases[q] == Holding(doc);
    SizesOfOne(f.base.docs, id);
    assert f3.base.docs - {id} == f3.base.docs;
  }

  /** A reindex whose document gets chunks between its count and its deletion leaves the
      counter ahead of the rows by their number. */
  lemma {:induction false} CommitBeforeDeleteDrifts(f: Floor, r: nat, id: nat, data: seq<ChunkData>)
    requires Agree(f.base) && id in f.base.docs
    requires r in f.requests && f.requests[r] == Reindexing(id) && r in f.phases && f.phases[r] == Start
    ensures var f' := Do(Do(Do(Do(f, Turn(r)), Plain(Commit(id, data))), Turn(r)), Turn(r));
      f'.base.totalChunks == |f'.base.chunks| + |data|
  {
    var rows := RowsOf(f.base.chunks, id);
    var f1 := Do(f, Turn(r));
    assert f1.base == f.base && f1.phases[r] == Counted(rows);
    var f2 := Do(f1, Plain(Commit(id, data)));
    CountsStep(f.base, Commit(id, data), id);
    OutsideOne(f2.base.chunks, id);
    var f3 := Do(f2, Turn(r));
    assert f3.phases[r] == Owing(rows);
  }
}
