/**
  The denormalised counters of one user's knowledge base against its document and chunk
  tables. Each transaction is one step; a processing run is its status writes and, if it
  gets that far, the transaction that stores its chunks.
*/
module KnowledgeCounters {

  datatype Status = Pending | Processing | Indexing | Ready | Failed

  datatype Document = Document(status: Status, chunkCount: nat, size: nat, hash: string)

  /** A file offered for upload: whether its type is supported, and its content hash. */
  datatype File = File(size: nat, supported: bool, hash: string)

  datatype UploadResult = Stored | LimitExceeded | UnsupportedType | DuplicateContent

  datatype ChunkData = ChunkData(text: string, tokens: nat)

  datatype Chunk = Chunk(document: nat, index: nat, data: ChunkData)

  datatype Base = Base(
    docs: map<nat, Document>, chunks: seq<Chunk>, limitMb: nat,
    totalDocuments: int, totalChunks: int, totalStorage: int)

  datatype Event =
    | Upload(id: nat, file: File)
    | SetStatus(id: nat, status: Status)
    | Commit(id: nat, data: seq<ChunkData>)
    | Destroy(id: nat)
    | BulkDelete(ids: set<nat>)
    | Reprocess(id: nat)
    | Reindex(id: nat)

  // -------------------------------------------------------------------------- tables

  /** The chunk rows left when those of the documents in `ids` are deleted. */
  function Outside(chunks: seq<Chunk>, ids: set<nat>): seq<Chunk> {
    if chunks == [] then []
    else if chunks[0].document in ids then Outside(chunks[1..], ids)
    else [chunks[0]] + Outside(chunks[1..], ids)
  }

  function RowsOf(chunks: seq<Chunk>, id: nat): nat {
    if chunks == [] then 0
    else (if chunks[0].document == id then 1 else 0) + RowsOf(chunks[1..], id)
  }

  function NewChunks(id: nat, data: seq<ChunkData>): (r: seq<Chunk>)
    ensures |r| == |data| && forall i | 0 <= i < |r| :: r[i] == Chunk(id, i, data[i])
  {
    seq(|data|, i requires 0 <= i < |data| => Chunk(id, i, data[i]))
  }

  ghost function SumOf(m: map<nat, nat>): nat {
    if m == map[] then 0 else var k :| k in m; m[k] + SumOf(m - {k})
  }

  lemma {:induction false} SumRemove(m: map<nat, nat>, k: nat)
    requires k in m
    ensures SumOf(m) == m[k] + SumOf(m - {k})
    decreases |m|
  {
    var j :| j in m && SumOf(m) == m[j] + SumOf(m - {j});
    if j != k {
      SumRemove(m - {j}, k);
      SumRemove(m - {k}, j);
      assert m - {j} - {k} == m - {k} - {j};
    }
  }

  ghost function Sizes(docs: map<nat, Document>, ids: set<nat>): map<nat, nat> {
    map d | d in docs && d in ids :: docs[d].size
  }

  ghost function Counts(docs: map<nat, Document>, ids: set<nat>): map<nat, nat> {
    map d | d in docs && d in ids :: docs[d].chunkCount
  }

  // --------------------------------------------------------------------------- steps

  function UpdateStats(b: Base, documents: int, chunks: int, storage: int): Base {
    b.(totalDocuments := b.totalDocuments + documents, totalChunks := b.totalChunks + chunks,
       totalStorage := b.totalStorage + storage)
  }

  function NewDocument(file: File): Document {
    Document(Pending, 0, file.size, file.hash)
  }

  /** The limit is checked first, then the type, then the content. */
  function UploadOutcome(b: Base, file: File): UploadResult {
    if b.totalStorage + file.size > b.limitMb * 1024 * 1024 then LimitExceeded
    else if !file.supported then UnsupportedType
    else if exists d | d in b.docs :: b.docs[d].hash == file.hash then DuplicateContent
    else Stored
  }

  ghost function Step(b: Base, e: Event): Base {
    match e
    case Upload(id, file) =>
      if id in b.docs || UploadOutcome(b, file) != Stored then b
      else UpdateStats(b.(docs := b.docs[id := NewDocument(file)]), 1, 0, file.size)
    case SetStatus(id, status) =>
      if id !in b.docs then b else b.(docs := b.docs[id := b.docs[id].(status := status)])
    case Commit(id, data) =>
      if id !in b.docs then b
      else
        var doc := b.docs[id].(chunkCount := |data|, status := Ready);
        UpdateStats(b.(docs := b.docs[id := doc], chunks := b.chunks + NewChunks(id, data)), 0, |data|, 0)
    case Destroy(id) =>
      if id !in b.docs then b
      else
        UpdateStats(b.(docs := b.docs - {id}, chunks := Outside(b.chunks, {id})),
                    -1, 0 - b.docs[id].chunkCount, 0 - b.docs[id].size)
    case BulkDelete(ids) =>
      var hit := b.docs.Keys * ids;
      UpdateStats(b.(docs := b.docs - hit, chunks := Outside(b.chunks, hit)),
                  0 - |hit|, 0 - SumOf(Counts(b.docs, hit)), 0 - SumOf(Sizes(b.docs, hit)))
    case Reprocess(id) =>
      if id !in b.docs then b
      else
        UpdateStats(b.(docs := b.docs[id := b.docs[id].(chunkCount := 0, status := Pending)],
                       chunks := Outside(b.chunks, {id})), 0, 0 - b.docs[id].chunkCount, 0)
    case Reindex(id) =>
      if id !in b.docs then b
      else
        UpdateStats(b.(docs := b.docs[id := b.docs[id].(chunkCount := 0, status := Pending)],
                       chunks := Outside(b.chunks, {id})), 0, 0 - RowsOf(b.chunks, id), 0)
  }

  ghost function Run(b: Base, run: seq<Event>): Base
    decreases |run|
  {
    if run == [] then b else Run(Step(b, run[0]), run[1..])
  }

  const EMPTY: Base := Base(map[], [], 100, 0, 0, 0)

  // ------------------------------------------------------------------- table lemmas

  lemma {:induction false} OutsideOne(chunks: seq<Chunk>, id: nat)
    ensures |Outside(chunks, {id})| + RowsOf(chunks, id) == |chunks|
  {
    if chunks != [] { OutsideOne(chunks[1..], id); }
  }

  lemma {:induction false} OutsideRows(chunks: seq<Chunk>, ids: set<nat>, d: nat)
    ensures RowsOf(Outside(chunks, ids), d) == if d in ids then 0 else RowsOf(chunks, d)
  {
    if chunks != [] { OutsideRows(chunks[1..], ids, d); }
  }

  lemma {:induction false} OutsideMembers(chunks: seq<Chunk>, ids: set<nat>, c: Chunk)
    ensures c in Outside(chunks, ids) <==> c in chunks && c.document !in ids
  {
    if chunks != [] { OutsideMembers(chunks[1..], ids, c); }
  }

  lemma {:induction false} OutsideTwice(chunks: seq<Chunk>, a: set<nat>, b: set<nat>)
    ensures Outside(Outside(chunks, a), b) == Outside(chunks, a + b)
  {
    if chunks != [] {
      OutsideTwice(chunks[1..], a, b);
      var rest := Outside(chunks[1..], a);
      assert ([chunks[0]] + rest)[1..] == rest;
    }
  }

  lemma {:induction false} OutsideNothing(chunks: seq<Chunk>)
    ensures Outside(chunks, {}) == chunks
  {
    if chunks != [] { OutsideNothing(chunks[1..]); }
  }

  lemma {:induction false} RowsConcat(a: seq<Chunk>, b: seq<Chunk>, d: nat)
    ensures RowsOf(a + b, d) == RowsOf(a, d) + RowsOf(b, d)
  {
    if a == [] { assert a + b == b; } else {
      assert (a + b)[1..] == a[1..] + b;
      RowsConcat(a[1..], b, d);
    }
  }

  lemma {:induction false} RowsUniform(chunks: seq<Chunk>, id: nat, d: nat)
    requires forall i | 0 <= i < |chunks| :: chunks[i].document == id
    ensures RowsOf(chunks, d) == if d == id then |chunks| else 0
  {
    if chunks != [] { RowsUniform(chunks[1..], id, d); }
  }

  /** Rows deleted with a set of documents, document by document. */
  ghost function RowCounts(chunks: seq<Chunk>, ids: set<nat>): map<nat, nat> {
    map d | d in ids :: RowsOf(chunks, d)
  }

  lemma {:induction false} OutsideMany(chunks: seq<Chunk>, ids: set<nat>)
    ensures |Outside(chunks, ids)| + SumOf(RowCounts(chunks, ids)) == |chunks|
    decreases |ids|
  {
    if ids == {} {
      OutsideNothing(chunks);
      assert RowCounts(chunks, ids) == map[];
    } else {
      var d :| d in ids;
      var rest := ids - {d};
      OutsideMany(chunks, rest);
      OutsideTwice(chunks, rest, {d});
      assert rest + {d} == ids;
      OutsideOne(Outside(chunks, rest), d);
      OutsideRows(chunks, rest, d);
      SumRemove(RowCounts(chunks, ids), d);
      assert RowCounts(chunks, ids) - {d} == RowCounts(chunks, rest);
    }
  }

  lemma {:induction false} SumSplit(m: map<nat, nat>, ids: set<nat>)
    requires ids <= m.Keys
    ensures SumOf(m) == SumOf(map d | d in m && d in ids :: m[d]) + SumOf(m - ids)
    decreases |ids|
  {
    var part := map d | d in m && d in ids :: m[d];
    if ids == {} {
      assert part == map[] && m - ids == m;
    } else {
      var k :| k in ids;
      SumSplit(m - {k}, ids - {k});
      SumRemove(m, k);
      SumRemove(part, k);
      assert part - {k} == map d | d in m - {k} && d in ids - {k} :: (m - {k})[d];
      assert m - {k} - (ids - {k}) == m - ids;
    }
  }

  // ------------------------------------------------------- what every history keeps

  ghost predicate Located(b: Base) {
    && TotalsOk(b)
    && (forall c | c in b.chunks :: c.document in b.docs)
  }

  /** How far the chunk counter is ahead of the chunk table. */
  function Drift(b: Base): int {
    b.totalChunks - |b.chunks|
  }

  ghost predicate Sound(b: Base) {
    && Located(b) && Drift(b) >= 0
    && forall d | d in b.docs :: b.docs[d].chunkCount <= RowsOf(b.chunks, d)
  }

  lemma {:induction false} ChunksStayLocated(b: Base, e: Event, c: Chunk)
    requires (forall x | x in b.chunks :: x.document in b.docs) && c in Step(b, e).chunks
    ensures c.document in Step(b, e).docs
  {
    match e
    case Destroy(id) => OutsideMembers(b.chunks, {id}, c);
    case BulkDelete(ids) => OutsideMembers(b.chunks, b.docs.Keys * ids, c);
    case Reprocess(id) => OutsideMembers(b.chunks, {id}, c);
    case Reindex(id) => OutsideMembers(b.chunks, {id}, c);
    case _ =>
  }

  ghost function AllSizes(docs: map<nat, Document>): map<nat, nat> {
    Sizes(docs, docs.Keys)
  }

  lemma {:induction false} SizesAdd(docs: map<nat, Document>, id: nat, doc: Document)
    requires id !in docs
    ensures SumOf(AllSizes(docs[id := doc])) == SumOf(AllSizes(docs)) + doc.size
  {
    SumRemove(AllSizes(docs[id := doc]), id);
    assert AllSizes(docs[id := doc]) - {id} == AllSizes(docs);
  }

  lemma {:induction false} SizesUpdate(docs: map<nat, Document>, id: nat, doc: Document)
    requires id in docs && doc.size == docs[id].size
    ensures AllSizes(docs[id := doc]) == AllSizes(docs) && |docs[id := doc]| == |docs|
  {
    assert docs[id := doc].Keys == docs.Keys;
  }

  lemma {:induction false} SizesDelete(docs: map<nat, Document>, hit: set<nat>)
    requires hit <= docs.Keys
    ensures SumOf(AllSizes(docs - hit)) == SumOf(AllSizes(docs)) - SumOf(Sizes(docs, hit))
    ensures |docs - hit| == |docs| - |hit|
  {
    var all := AllSizes(docs);
    SumSplit(all, hit);
    assert Sizes(docs, hit) == map d | d in all && d in hit :: all[d];
    assert all - hit == AllSizes(docs - hit);
    assert docs.Keys == (docs - hit).Keys + hit;
  }

  lemma {:induction false} SizesOfOne(docs: map<nat, Document>, id: nat)
    requires id in docs
    ensures SumOf(AllSizes(docs - {id})) == SumOf(AllSizes(docs)) - docs[id].size && |docs - {id}| == |docs| - 1
  {
    SizesDelete(docs, {id});
    SumRemove(Sizes(docs, {id}), id);
    assert Sizes(docs, {id}) - {id} == map[];
  }

  ghost predicate TotalsOk(b: Base) {
    b.totalDocuments == |b.docs| && b.totalStorage == SumOf(AllSizes(b.docs))
  }

  lemma {:induction false} UpdateKeepsTotals(b: Base, e: Event)
    requires TotalsOk(b) && (e.SetStatus? || e.Commit? || e.Reprocess? || e.Reindex?)
    ensures TotalsOk(Step(b, e))
  {
    if e.id in b.docs {
      var doc := Step(b, e).docs[e.id];
      assert Step(b, e).docs == b.docs[e.id := doc];
      SizesUpdate(b.docs, e.id, doc);
    }
  }

  lemma {:induction false} UploadKeepsTotals(b: Base, e: Event)
    requires TotalsOk(b) && e.Upload?
    ensures TotalsOk(Step(b, e))
  {
    if e.id !in b.docs { SizesAdd(b.docs, e.id, NewDocument(e.file)); }
  }

  lemma {:induction false} DeleteKeepsTotals(b: Base, e: Event)
    requires TotalsOk(b) && (e.Destroy? || e.BulkDelete?)
    ensures TotalsOk(Step(b, e))
  {
    if e.BulkDelete? {
      SizesDelete(b.docs, b.docs.Keys * e.ids);
    } else if e.id in b.docs {
      SizesOfOne(b.docs, e.id);
    }
  }

  lemma {:induction false} TotalsStayLocated(b: Base, e: Event)
    requires TotalsOk(b)
    ensures TotalsOk(Step(b, e))
  {
    match e
    case Upload(_, _) => UploadKeepsTotals(b, e);
    case Destroy(_) => DeleteKeepsTotals(b, e);
    case BulkDelete(_) => DeleteKeepsTotals(b, e);
    case _ => UpdateKeepsTotals(b, e);
  }

  lemma {:induction false} LocatedStep(b: Base, e: Event)
    requires Located(b)
    ensures Located(Step(b, e))
  {
    TotalsStayLocated(b, e);
    forall c | c in Step(b, e).chunks ensures c.document in Step(b, e).docs { ChunksStayLocated(b, e, c); }
  }

  /** The drift a step adds: the rows it deletes beyond those it takes off the counter. */
  ghost function Unaccounted(b: Base, e: Event): int {
    match e
    case Destroy(id) => if id in b.docs then RowsOf(b.chunks, id) - b.docs[id].chunkCount else 0
    case Reprocess(id) => if id in b.docs then RowsOf(b.chunks, id) - b.docs[id].chunkCount else 0
    case BulkDelete(ids) =>
      var hit := b.docs.Keys * ids;
      SumOf(RowCounts(b.chunks, hit)) - SumOf(Counts(b.docs, hit))
    case _ => 0
  }

  lemma {:induction false} DriftStep(b: Base, e: Event)
    ensures Drift(Step(b, e)) == Drift(b) + Unaccounted(b, e)
  {
    match e
    case Destroy(id) => OutsideOne(b.chunks, id);
    case Reprocess(id) => OutsideOne(b.chunks, id);
    case Reindex(id) => OutsideOne(b.chunks, id);
    case BulkDelete(ids) => OutsideMany(b.chunks, b.docs.Keys * ids);
    case _ =>
  }

  lemma {:induction false} SumMonotone(m: map<nat, nat>, n: map<nat, nat>)
    requires m.Keys == n.Keys && forall d | d in m :: m[d] <= n[d]
    ensures SumOf(m) <= SumOf(n)
    decreases |m|
  {
    if m != map[] {
      var k :| k in m;
      SumRemove(m, k);
      SumRemove(n, k);
      SumMonotone(m - {k}, n - {k});
    }
  }

  lemma {:induction false} CountsStep(b: Base, e: Event, d: nat)
    requires d in Step(b, e).docs
    ensures var b' := Step(b, e);
      if e.Commit? && e.id == d then
        b'.docs[d].chunkCount == |e.data| && RowsOf(b'.chunks, d) == RowsOf(b.chunks, d) + |e.data|
      else if (e.Reprocess? || e.Reindex?) && e.id == d then
        b'.docs[d].chunkCount == 0 && RowsOf(b'.chunks, d) == 0
      else if d in b.docs then
        b'.docs[d].chunkCount == b.docs[d].chunkCount && RowsOf(b'.chunks, d) == RowsOf(b.chunks, d)
      else b'.docs[d].chunkCount == 0 && b'.chunks == b.chunks
  {
    match e
    case Commit(id, data) =>
      RowsConcat(b.chunks, NewChunks(id, data), d);
      RowsUniform(NewChunks(id, data), id, d);
    case Destroy(id) => OutsideRows(b.chunks, {id}, d);
    case BulkDelete(ids) => OutsideRows(b.chunks, b.docs.Keys * ids, d);
    case Reprocess(id) => OutsideRows(b.chunks, {id}, d);
    case Reindex(id) => OutsideRows(b.chunks, {id}, d);
    case _ =>
  }

  lemma {:induction false} NoRows(chunks: seq<Chunk>, d: nat)
    requires forall c | c in chunks :: c.document != d
    ensures RowsOf(chunks, d) == 0
  {
    if chunks != [] {
      assert chunks[0] in chunks && forall c | c in chunks[1..] :: c in chunks;
      NoRows(chunks[1..], d);
    }
  }

  lemma {:induction false} SoundStep(b: Base, e: Event)
    requires Sound(b)
    ensures Sound(Step(b, e))
  {
    LocatedStep(b, e);
    DriftStep(b, e);
    if e.BulkDelete? {
      var hit := b.docs.Keys * e.ids;
      SumMonotone(Counts(b.docs, hit), RowCounts(b.chunks, hit));
    }
    forall d | d in Step(b, e).docs ensures Step(b, e).docs[d].chunkCount <= RowsOf(Step(b, e).chunks, d) {
      CountsStep(b, e, d);
    }
  }

  /** Every history: the document and storage counters agree with the tables, the chunk
      counter is never behind the chunk table, and no counter goes negative. */
  lemma {:induction false} CountersNeverNegative(b: Base, run: seq<Event>)
    requires Sound(b)
    ensures var b' := Run(b, run);
      && Sound(b') && b'.totalDocuments >= 0 && b'.totalChunks >= |b'.chunks| && b'.totalStorage >= 0
    decreases |run|
  {
    if run != [] {
      SoundStep(b, run[0]);
      CountersNeverNegative(Step(b, run[0]), run[1..]);
    }
  }

  /** Commits, whole reindexes and uploads, in any order, never move the chunk counter away
      from the table. KnowledgeRequests takes a reindex apart. */
  lemma {:induction false} CommitAndReindexKeepDrift(b: Base, run: seq<Event>)
    requires forall e | e in run :: !e.Destroy? && !e.BulkDelete? && !e.Reprocess?
    ensures Drift(Run(b, run)) == Drift(b)
    decreases |run|
  {
    if run != [] {
      assert run[0] in run && forall e | e in run[1..] :: e in run;
      DriftStep(b, run[0]);
      CommitAndReindexKeepDrift(Step(b, run[0]), run[1..]);
    }
  }

  // ------------------------------------------------------------------ full agreement

  /** All counters, per user and per document, agree with the tables. */
  ghost predicate Agree(b: Base) {
    && Located(b) && b.totalChunks == |b.chunks|
    && forall d | d in b.docs :: b.docs[d].chunkCount == RowsOf(b.chunks, d)
  }

  ghost predicate AgreeThroughout(b: Base, run: seq<Event>)
    decreases |run|
  {
    Agree(b) && (run != [] ==> AgreeThroughout(Step(b, run[0]), run[1..]))
  }

  /** Every transaction that stores chunks finds the document without any. */
  ghost predicate CleanCommits(b: Base, run: seq<Event>)
    decreases |run|
  {
    run == [] ||
    (CleanStep(b, run[0]) && CleanCommits(Step(b, run[0]), run[1..]))
  }

  lemma {:induction false} NothingUnaccounted(b: Base, e: Event)
    requires Agree(b)
    ensures Unaccounted(b, e) == 0
  {
    if e.BulkDelete? {
      var hit := b.docs.Keys * e.ids;
      assert Counts(b.docs, hit) == RowCounts(b.chunks, hit);
    }
  }

  /** This step is not a commit on top of chunks that are already there. */
  predicate CleanStep(b: Base, e: Event) {
    e.Commit? && e.id in b.docs ==> RowsOf(b.chunks, e.id) == 0
  }

  lemma {:induction false} CountAgrees(b: Base, e: Event, d: nat)
    requires Agree(b) && CleanStep(b, e) && d in Step(b, e).docs
    ensures Step(b, e).docs[d].chunkCount == RowsOf(Step(b, e).chunks, d)
  {
    CountsStep(b, e, d);
    if d !in b.docs { NoRows(b.chunks, d); }
  }

  lemma {:induction false} AgreeStep(b: Base, e: Event)
    requires Agree(b)
    ensures Agree(Step(b, e)) <==> CleanStep(b, e)
  {
    LocatedStep(b, e);
    DriftStep(b, e);
    NothingUnaccounted(b, e);
    if CleanStep(b, e) {
      forall d | d in Step(b, e).docs ensures Step(b, e).docs[d].chunkCount == RowsOf(Step(b, e).chunks, d) {
        CountAgrees(b, e, d);
      }
    } else {
      CountsStep(b, e, e.id);
    }
  }

  /** The counters agree in every state of a history exactly when each processing commit
      finds its document without chunks. KnowledgeRuns says which task discipline ensures it. */
  lemma {:induction false} AgreeIffCleanCommits(b: Base, run: seq<Event>)
    requires Agree(b)
    ensures AgreeThroughout(b, run) <==> CleanCommits(b, run)
    decreases |run|
  {
    if run != [] {
      AgreeStep(b, run[0]);
      if Agree(Step(b, run[0])) { AgreeIffCleanCommits(Step(b, run[0]), run[1..]); }
    }
  }

  /** Agreement makes the chunk counter the sum of the documents' own counts. */
  lemma {:induction false} AgreeSums(b: Base)
    requires Agree(b)
    ensures b.totalChunks == SumOf(Counts(b.docs, b.docs.Keys))
  {
    OutsideMany(b.chunks, b.docs.Keys);
    NothingOutside(b.chunks, b.docs.Keys);
    assert RowCounts(b.chunks, b.docs.Keys) == Counts(b.docs, b.docs.Keys);
  }

  lemma {:induction false} NothingOutside(chunks: seq<Chunk>, ids: set<nat>)
    requires forall c | c in chunks :: c.document in ids
    ensures Outside(chunks, ids) == []
  {
    if chunks != [] {
      assert chunks[0] in chunks && forall c | c in chunks[1..] :: c in chunks;
      NothingOutside(chunks[1..], ids);
    }
  }

  /** Two overlapping runs of one document, then its deletion, leave the counter ahead. */
  lemma {:induction false} OverlapThenDestroyDrifts(id: nat, file: File, data: seq<ChunkData>)
    requires file.size <= EMPTY.limitMb * 1024 * 1024 && file.supported
    ensures var b := Step(Step(Step(Step(EMPTY, Upload(id, file)), Commit(id, data)), Commit(id, data)), Destroy(id));
      b.docs == map[] && b.chunks == [] && b.totalChunks == |data|
  {
    var b1 := Step(EMPTY, Upload(id, file));
    var b2 := Step(b1, Commit(id, data));
    var b3 := Step(b2, Commit(id, data));
    assert b3.docs[id].chunkCount == |data| && b3.totalChunks == 2 * |data|;
    assert forall c | c in b3.chunks :: c.document == id;
    NothingOutside(b3.chunks, {id});
    assert b3.docs - {id} == map[];
  }
}
