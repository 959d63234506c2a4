/** One user's knowledge base in place: views and tasks that change documents, chunks and
    counters, each proved to perform its steps of KnowledgeCounters. */
module KnowledgeBase {
  import opened KnowledgeCounters

  /** Where a processing run fails, if it does. */
  datatype Failure = Never | WhileExtracting | WhileEmbedding | AfterCommit

  /** What a processing run of an existing document does to the tables. */
  function ProcessingEvents(id: nat, data: seq<ChunkData>, failure: Failure): seq<Event> {
    match failure
    case Never => [SetStatus(id, Processing), SetStatus(id, Indexing), Commit(id, data)]
    case WhileExtracting => [SetStatus(id, Processing), SetStatus(id, Failed)]
    case WhileEmbedding => [SetStatus(id, Processing), SetStatus(id, Indexing), SetStatus(id, Failed)]
    case AfterCommit => [SetStatus(id, Processing), SetStatus(id, Indexing), Commit(id, data), SetStatus(id, Failed)]
  }

  function Tokens(data: seq<ChunkData>): nat {
    if data == [] then 0 else Tokens(data[..|data| - 1]) + data[|data| - 1].tokens
  }

  lemma {:induction false} RunSnoc(b: Base, run: seq<Event>, e: Event)
    ensures Run(b, run + [e]) == Step(Run(b, run), e)
    decreases |run|
  {
    if run == [] {
      assert Run(b, [e]) == Run(Step(b, e), [e][1..]);
    } else {
      assert (run + [e])[1..] == run[1..] + [e];
      RunSnoc(Step(b, run[0]), run[1..], e);
    }
  }

  lemma {:induction false} SumsRemove(docs: map<nat, Document>, ids: set<nat>, d: nat)
    requires d in ids && d in docs
    ensures SumOf(Counts(docs, ids)) == docs[d].chunkCount + SumOf(Counts(docs, ids - {d}))
    ensures SumOf(Sizes(docs, ids)) == docs[d].size + SumOf(Sizes(docs, ids - {d}))
  {
    SumRemove(Counts(docs, ids), d);
    SumRemove(Sizes(docs, ids), d);
    assert Counts(docs, ids) - {d} == Counts(docs, ids - {d});
    assert Sizes(docs, ids) - {d} == Sizes(docs, ids - {d});
  }

  lemma {:induction false} SumsNone(docs: map<nat, Document>)
    ensures SumOf(Counts(docs, {})) == 0 && SumOf(Sizes(docs, {})) == 0
  {
    assert Counts(docs, {}) == map[] && Sizes(docs, {}) == map[];
  }

  class Library {
    var docs: map<nat, Document>
    var chunks: seq<Chunk>
    var limitMb: nat
    var totalDocuments: int
    var totalChunks: int
    var totalStorage: int

    ghost function View(): Base
      reads this
    {
      Base(docs, chunks, limitMb, totalDocuments, totalChunks, totalStorage)
    }

    constructor ()
      ensures View() == EMPTY
    {
      docs, chunks, limitMb, totalDocuments, totalChunks, totalStorage := map[], [], 100, 0, 0, 0;
    }

    method AdjustStats(documentsDelta: int, chunksDelta: int, storageDelta: int)
      modifies this`totalDocuments, this`totalChunks, this`totalStorage
      ensures View() == UpdateStats(old(View()), documentsDelta, chunksDelta, storageDelta)
    {
      totalDocuments := totalDocuments + documentsDelta;
      totalChunks := totalChunks + chunksDelta;
      totalStorage := totalStorage + storageDelta;
    }

    /** `id` is the new document's; nothing is stored unless every check passes. */
    method UploadDocument(id: nat, file: File) returns (r: UploadResult)
      requires id !in docs
      modifies this
      ensures View() == Step(old(View()), Upload(id, file))
      ensures r == UploadOutcome(old(View()), file)
      ensures r.Stored? <==> id in docs
    {
      if totalStorage + file.size > limitMb * 1024 * 1024 { return LimitExceeded; }
      if !file.supported { return UnsupportedType; }
      if exists d | d in docs :: docs[d].hash == file.hash { return DuplicateContent; }
      docs := docs[id := NewDocument(file)];
      AdjustStats(1, 0, file.size);
      r := Stored;
    }

    method Mark(id: nat, status: Status)
      modifies this`docs
      ensures View() == Step(old(View()), SetStatus(id, status))
    {
      if id in docs { docs := docs[id := docs[id].(status := status)]; }
    }

    /** The transaction that stores the chunks of a document and credits the counter. If the
        document was deleted meanwhile it is rolled back. */
    method StoreChunks(id: nat, data: seq<ChunkData>) returns (committed: bool, totalTokens: nat)
      modifies this
      ensures View() == Step(old(View()), Commit(id, data)) && totalTokens == Tokens(data)
      ensures committed <==> id in old(docs)
    {
      var chunkObjects: seq<Chunk> := [];
      totalTokens := 0;
      for i := 0 to |data|
        invariant chunkObjects == NewChunks(id, data)[..i] && totalTokens == Tokens(data[..i])
        invariant View() == old(View())
      {
        assert data[..i + 1][..i] == data[..i];
        totalTokens := totalTokens + data[i].tokens;
        chunkObjects := chunkObjects + [Chunk(id, i, data[i])];
      }
      assert data[..|data|] == data && chunkObjects == NewChunks(id, data);
      if id !in docs { return false, totalTokens; }
      committed := true;
      chunks := chunks + chunkObjects;
      docs := docs[id := docs[id].(chunkCount := |chunkObjects|, status := Ready)];
      AdjustStats(0, |chunkObjects|, 0);
    }

    method ProcessDocument(id: nat, data: seq<ChunkData>, failure: Failure) returns (found: bool)
      modifies this
      ensures found <==> id in old(docs)
      ensures View() == if found then Run(old(View()), ProcessingEvents(id, data, failure)) else old(View())
    {
      if id !in docs { return false; }
      found := true;
      ghost var b := View();
      ghost var run: seq<Event> := [];
      Mark(id, Processing);
      run := Did(b, run, SetStatus(id, Processing));
      if failure == WhileExtracting {
        Mark(id, Failed);
        run := Did(b, run, SetStatus(id, Failed));
        assert run == ProcessingEvents(id, data, failure);
        return;
      }
      Mark(id, Indexing);
      run := Did(b, run, SetStatus(id, Indexing));
      if failure == WhileEmbedding {
        Mark(id, Failed);
        run := Did(b, run, SetStatus(id, Failed));
        assert run == ProcessingEvents(id, data, failure);
        return;
      }
      var committed, tokens := StoreChunks(id, data);
      run := Did(b, run, Commit(id, data));
      if failure == AfterCommit {
        Mark(id, Failed);
        run := Did(b, run, SetStatus(id, Failed));
      }
      assert run == ProcessingEvents(id, data, failure);
    }

    method DestroyDocument(id: nat) returns (found: bool)
      modifies this
      ensures View() == Step(old(View()), Destroy(id))
      ensures found <==> id in old(docs)
    {
      if id !in docs { return false; }
      found := true;
      var doc := docs[id];
      DeleteRows({id});
      AdjustStats(-1, -(doc.chunkCount as int), -(doc.size as int));
    }

    /** The stored counts and sizes of some documents, added up before they are deleted. */
    method AggregateStats(hit: set<nat>) returns (chunkSum: nat, sizeSum: nat)
      requires hit <= docs.Keys
      ensures chunkSum == SumOf(Counts(docs, hit)) && sizeSum == SumOf(Sizes(docs, hit))
    {
      var pending := hit;
      chunkSum, sizeSum := 0, 0;
      while pending != {}
        invariant pending <= hit
        invariant chunkSum + SumOf(Counts(docs, pending)) == SumOf(Counts(docs, hit))
        invariant sizeSum + SumOf(Sizes(docs, pending)) == SumOf(Sizes(docs, hit))
        decreases |pending|
      {
        var d :| d in pending;
        SumsRemove(docs, pending, d);
        chunkSum := chunkSum + docs[d].chunkCount;
        sizeSum := sizeSum + docs[d].size;
        pending := pending - {d};
      }
      SumsNone(docs);
    }

    method BulkDeleteDocuments(ids: set<nat>) returns (deleted: nat)
      modifies this
      ensures View() == Step(old(View()), BulkDelete(ids))
      ensures deleted == |old(docs).Keys * ids|
    {
      var hit := docs.Keys * ids;
      var chunkSum, sizeSum := AggregateStats(hit);
      deleted := |hit|;
      DeleteRows(hit);
      AdjustStats(-(deleted as int), -(chunkSum as int), -(sizeSum as int));
    }

    /** Deletes documents, and with them their chunks. */
    method DeleteRows(hit: set<nat>)
      modifies this`docs, this`chunks
      ensures View() == old(View()).(docs := old(docs) - hit, chunks := Outside(old(chunks), hit))
    {
      docs := docs - hit;
      chunks := Outside(chunks, hit);
    }

    method ReprocessDocument(id: nat) returns (found: bool)
      modifies this
      ensures View() == Step(old(View()), Reprocess(id))
      ensures found <==> id in old(docs)
    {
      if id !in docs { return false; }
      found := true;
      var oldChunkCount: int := docs[id].chunkCount;
      chunks := Outside(chunks, {id});
      docs := docs[id := docs[id].(status := Pending, chunkCount := 0)];
      AdjustStats(0, 0 - oldChunkCount, 0);
    }

    method ReindexDocument(id: nat)
      modifies this
      ensures View() == Step(old(View()), Reindex(id))
    {
      if id !in docs { return; }
      var oldCount: int := RowsOf(chunks, id);
      chunks := Outside(chunks, {id});
      docs := docs[id := docs[id].(chunkCount := 0, status := Pending)];
      AdjustStats(0, 0 - oldCount, 0);
    }
  }

  /** Bookkeeping of the steps done so far. */
  ghost function Did(b: Base, run: seq<Event>, e: Event): (r: seq<Event>)
    ensures r == run + [e] && Run(b, r) == Step(Run(b, run), e)
  {
    RunSnoc(b, run, e);
    run + [e]
  }
}
