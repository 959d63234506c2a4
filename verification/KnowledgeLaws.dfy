/**
  What each request on a knowledge base writes, row by row, in terms of the stored fields.
*/
module KnowledgeLaws {
  import opened KnowledgeCounters
  import KnowledgeBase
  import KnowledgeRuns
  import KnowledgeRequests

  /** An upload is stored only if it fits under the limit in mebibytes, its type is supported
      and no document has its content; then it is pending, without chunks, and credited. */
  lemma {:induction false} UploadWrites(b: Base, id: nat, file: File)
    requires id !in b.docs
    ensures var fits := b.totalStorage + file.size <= b.limitMb * 1_048_576;
      var known := exists d | d in b.docs :: b.docs[d].hash == file.hash;
      Step(b, Upload(id, file)) ==
        if !fits || !file.supported || known then b
        else b.(docs := b.docs[id := Document(Pending, 0, file.size, file.hash)],
                totalDocuments := b.totalDocuments + 1, totalStorage := b.totalStorage + file.size)
    ensures UploadOutcome(b, file).LimitExceeded? <==> !(b.totalStorage + file.size <= b.limitMb * 1_048_576)
    ensures UploadOutcome(b, file).UnsupportedType? <==>
      b.totalStorage + file.size <= b.limitMb * 1_048_576 && !file.supported
  {
  }

  lemma {:induction false} StatusWrites(b: Base, id: nat, status: Status)
    ensures Step(b, SetStatus(id, status)) ==
      if id in b.docs then b.(docs := b.docs[id := b.docs[id].(status := status)]) else b
  {
  }

  /** Storing chunks: one row each, numbered from 0, a ready document that counts them, and
      that many on the counter. */
  lemma {:induction false} CommitWrites(b: Base, id: nat, data: seq<ChunkData>)
    ensures var b' := Step(b, Commit(id, data));
      if id !in b.docs then b' == b
      else
        && b'.docs == b.docs[id := b.docs[id].(status := Ready, chunkCount := |data|)]
        && |b'.chunks| == |b.chunks| + |data| && b'.chunks[..|b.chunks|] == b.chunks
        && (forall i | 0 <= i < |data| :: b'.chunks[|b.chunks| + i] == Chunk(id, i, data[i]))
        && b'.totalChunks == b.totalChunks + |data| && b'.totalDocuments == b.totalDocuments
        && b'.totalStorage == b.totalStorage && b'.limitMb == b.limitMb
  {
  }

  /** The rows left are those of other documents, in order: one more row at the end stays at
      the end or goes. */
  lemma {:induction false} RowsLeft(chunks: seq<Chunk>, ids: set<nat>, c: Chunk)
    ensures Outside([], ids) == []
    ensures Outside(chunks + [c], ids) == if c.document in ids then Outside(chunks, ids) else Outside(chunks, ids) + [c]
  {
    if chunks == [] {
      assert chunks + [c] == [c] && [c][1..] == [];
    } else {
      assert (chunks + [c])[1..] == chunks[1..] + [c];
      RowsLeft(chunks[1..], ids, c);
    }
  }

  /** Deleting, reprocessing and reindexing one document. */
  lemma {:induction false} DocumentWrites(b: Base, id: nat)
    requires id in b.docs
    ensures var doc := b.docs[id];
      && Step(b, Destroy(id)) ==
           b.(docs := b.docs - {id}, chunks := Outside(b.chunks, {id}),
              totalDocuments := b.totalDocuments - 1, totalChunks := b.totalChunks - doc.chunkCount,
              totalStorage := b.totalStorage - doc.size)
      && Step(b, Reprocess(id)) ==
           b.(docs := b.docs[id := doc.(status := Pending, chunkCount := 0)], chunks := Outside(b.chunks, {id}),
              totalChunks := b.totalChunks - doc.chunkCount)
      && Step(b, Reindex(id)) ==
           b.(docs := b.docs[id := doc.(status := Pending, chunkCount := 0)], chunks := Outside(b.chunks, {id}),
              totalChunks := b.totalChunks - (|b.chunks| - |Outside(b.chunks, {id})|))
  {
    OutsideOne(b.chunks, id);
  }

  lemma {:induction false} MissingWritesNothing(b: Base, id: nat)
    requires id !in b.docs
    ensures Step(b, Destroy(id)) == b && Step(b, Reprocess(id)) == b && Step(b, Reindex(id)) == b
  {
  }

  /** The documents in `hit` deleted, all of them stored. */
  ghost function Deleted(b: Base, hit: set<nat>): Base {
    UpdateStats(b.(docs := b.docs - hit, chunks := Outside(b.chunks, hit)),
                0 - |hit|, 0 - SumOf(Counts(b.docs, hit)), 0 - SumOf(Sizes(b.docs, hit)))
  }

  lemma {:induction false} BulkIsDeleted(b: Base, ids: set<nat>, hit: set<nat>)
    requires hit == b.docs.Keys * ids
    ensures Step(b, BulkDelete(ids)) == Deleted(b, hit)
  {
  }

  lemma {:induction false} DeletedOneByOne(b: Base, hit: set<nat>, id: nat)
    requires id in hit && hit <= b.docs.Keys
    ensures Deleted(b, hit) == Deleted(Step(b, Destroy(id)), hit - {id})
  {
    DocumentWrites(b, id);
    assert b.docs - hit == b.docs - {id} - (hit - {id}) && |hit| == 1 + |hit - {id}|;
    OutsideTwice(b.chunks, {id}, hit - {id});
    assert {id} + (hit - {id}) == hit;
    BulkSums(b.docs, hit, id);
  }

  /** Deleting several documents is deleting them one after the other; unknown ones do
      nothing. */
  lemma {:induction false} BulkDeletesOneByOne(b: Base, ids: set<nat>, id: nat)
    requires id in ids
    ensures Step(b, BulkDelete(ids)) == Step(Step(b, Destroy(id)), BulkDelete(ids - {id}))
    ensures Step(b, BulkDelete({})) == b
  {
    var hit, one := b.docs.Keys * ids, Step(b, Destroy(id));
    BulkNothing(b);
    BulkIsDeleted(b, ids, hit);
    if id in b.docs {
      assert one.docs.Keys * (ids - {id}) == hit - {id};
      BulkIsDeleted(one, ids - {id}, hit - {id});
      DeletedOneByOne(b, hit, id);
    } else {
      assert b.docs.Keys * (ids - {id}) == hit;
      BulkIsDeleted(b, ids - {id}, hit);
    }
  }

  lemma {:induction false} BulkSums(docs: map<nat, Document>, hit: set<nat>, id: nat)
    requires id in hit && hit <= docs.Keys
    ensures SumOf(Counts(docs, hit)) == docs[id].chunkCount + SumOf(Counts(docs - {id}, hit - {id}))
    ensures SumOf(Sizes(docs, hit)) == docs[id].size + SumOf(Sizes(docs - {id}, hit - {id}))
  {
    SumRemove(Counts(docs, hit), id);
    SumRemove(Sizes(docs, hit), id);
    assert Counts(docs, hit) - {id} == Counts(docs - {id}, hit - {id});
    assert Sizes(docs, hit) - {id} == Sizes(docs - {id}, hit - {id});
  }

  lemma {:induction false} BulkNothing(b: Base)
    ensures Step(b, BulkDelete({})) == b
  {
    var none := b.docs.Keys * {};
    assert none == {} && b.docs - none == b.docs;
    OutsideNothing(b.chunks);
    assert Counts(b.docs, none) == map[] && Sizes(b.docs, none) == map[];
  }

  /** The tokens a run reports are those of its chunks, added up one by one. */
  lemma {:induction false} TokensAddUp(data: seq<ChunkData>, c: ChunkData)
    ensures KnowledgeBase.Tokens([]) == 0
    ensures KnowledgeBase.Tokens(data + [c]) == KnowledgeBase.Tokens(data) + c.tokens
  {
    assert (data + [c])[..|data|] == data;
  }

  // ------------------------------------------------------------------ runs and requests

  /** How a processing run leaves its document: ready with its chunks counted if it ran
      through, failed if it did not, with chunks only if it failed after storing them. */
  lemma {:induction false} ProcessingLeaves(b: Base, id: nat, data: seq<ChunkData>, failure: KnowledgeBase.Failure)
    requires id in b.docs
    ensures var b' := Run(b, KnowledgeBase.ProcessingEvents(id, data, failure));
      && id in b'.docs
      && b'.docs[id].status == (if failure.Never? then Ready else Failed)
      && b'.docs[id].chunkCount == (if failure.Never? || failure.AfterCommit? then |data| else b.docs[id].chunkCount)
      && |b'.chunks| == |b.chunks| + if failure.Never? || failure.AfterCommit? then |data| else 0
  {
    var p, x, c, f := SetStatus(id, Processing), SetStatus(id, Indexing), Commit(id, data), SetStatus(id, Failed);
    match failure
    case Never => ThreeEvents(b, p, x, c);
    case WhileExtracting => TwoEvents(b, p, f);
    case WhileEmbedding => ThreeEvents(b, p, x, f);
    case AfterCommit =>
      ThreeEvents(Step(b, p), x, c, f);
      assert [p, x, c, f][1..] == [x, c, f];
  }

  lemma {:induction false} TwoEvents(b: Base, e: Event, f: Event)
    ensures Run(b, [e, f]) == Step(Step(b, e), f)
  {
    assert [e, f][1..] == [f] && [f][1..] == [];
    assert Run(Step(Step(b, e), f), []) == Step(Step(b, e), f);
  }

  lemma {:induction false} ThreeEvents(b: Base, e: Event, f: Event, g: Event)
    ensures Run(b, [e, f, g]) == Step(Step(Step(b, e), f), g)
  {
    TwoEvents(Step(b, e), f, g);
    assert [e, f, g][1..] == [f, g];
  }

  /** What each move of a processing run does to the tables and the deliveries. */
  lemma {:induction false} BeginMoves(w: KnowledgeRuns.Work, id: nat)
    ensures KnowledgeRuns.Next(w, KnowledgeRuns.Begin(id)) ==
      if id !in w.queued then w
      else KnowledgeRuns.Work(Step(w.base, SetStatus(id, Processing)),
                              w.queued - multiset{id}, w.running + multiset{id})
  {
    OneEvent(w.base, SetStatus(id, Processing));
    assert w.queued + multiset{} == w.queued;
  }

  lemma {:induction false} IndexMoves(w: KnowledgeRuns.Work, id: nat)
    requires id in w.running
    ensures KnowledgeRuns.Next(w, KnowledgeRuns.Index(id)) == w.(base := Step(w.base, SetStatus(id, Indexing)))
  {
    OneEvent(w.base, SetStatus(id, Indexing));
    assert w.queued + multiset{} == w.queued;
  }

  lemma {:induction false} EndMoves(w: KnowledgeRuns.Work, id: nat, ending: KnowledgeRuns.Ending)
    requires id in w.running
    ensures var ended := KnowledgeRuns.Next(w, KnowledgeRuns.End(id, ending));
      && ended.running == w.running - multiset{id}
      && ended.queued == (if !ending.Completes? && ending.again then w.queued + multiset{id} else w.queued)
      && ended.base ==
           match ending
           case Completes(data) => Step(w.base, Commit(id, data))
           case FailsBefore(_) => Step(w.base, SetStatus(id, Failed))
           case FailsAfter(data, _) => Step(Step(w.base, Commit(id, data)), SetStatus(id, Failed))
  {
    assert w.queued + multiset{} == w.queued;
    match ending
    case Completes(data) => OneEvent(w.base, Commit(id, data));
    case FailsBefore(_) => OneEvent(w.base, SetStatus(id, Failed));
    case FailsAfter(data, _) => TwoEvents(w.base, Commit(id, data), SetStatus(id, Failed));
  }

  lemma {:induction false} OneEvent(b: Base, e: Event)
    ensures Run(b, [e]) == Step(b, e)
  {
    assert [e][1..] == [] && Run(Step(b, e), []) == Step(b, e);
  }

  /** A view's move is its event, and queues a delivery when it sends a document off. */
  lemma {:induction false} ViewMoves(w: KnowledgeRuns.Work, e: Event)
    requires !e.SetStatus? && !e.Commit?
    ensures var next := KnowledgeRuns.Next(w, KnowledgeRuns.View(e));
      && next.base == Step(w.base, e) && next.running == w.running
      && next.queued == w.queued +
           (match e
            case Upload(id, file) =>
              if id !in w.base.docs && UploadOutcome(w.base, file) == Stored then multiset{id} else multiset{}
            case Reprocess(id) => if id in w.base.docs then multiset{id} else multiset{}
            case Reindex(id) => if id in w.base.docs then multiset{id} else multiset{}
            case _ => multiset{})
  {
    OneEvent(w.base, e);
  }

  /** A request whose accesses nothing comes between is the atomic request. */
  lemma {:induction false} AloneIsAtomic(f: KnowledgeRequests.Floor, r: nat)
    requires r in f.requests && r in f.phases && f.phases[r] == KnowledgeRequests.Start
    requires f.requests[r].id in f.base.docs
    ensures var once := KnowledgeRequests.Do(f, KnowledgeRequests.Turn(r));
      var twice := KnowledgeRequests.Do(once, KnowledgeRequests.Turn(r));
      var thrice := KnowledgeRequests.Do(twice, KnowledgeRequests.Turn(r));
      match f.requests[r]
      case Destroying(id) => twice.base == Step(f.base, Destroy(id))
      case Reprocessing(id) => twice.base == Step(f.base, Reprocess(id))
      case Reindexing(id) => thrice.base == Step(f.base, Reindex(id))
  {
    var b, request := f.base, f.requests[r];
    var once := KnowledgeRequests.Do(f, KnowledgeRequests.Turn(r));
    assert once.base == b && once.phases[r] == KnowledgeRequests.Fetch(b, request);
  }
}
