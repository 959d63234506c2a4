/**
  The coding-agent loop: each iteration prunes the transcript, calls the model, refuses
  repeated reads, executes the other tool calls, and appends the calls and their results.

  Everything outside the loop is a World: what the model replies in each iteration, the ids
  handed to calls without one, what executed calls return, and the text rewrites done by
  pruning and compression. A statement about every World is a statement about every run.
*/
module AgentLoop {
  import opened Common
  import opened ToolBatch

  datatype Message =
    | System(content: string)
    | User(content: string)
    | Assistant(content: string, calls: seq<ToolCall>)
    | Tool(result: Result)

  datatype Reply = Reply(
    promptTokens: nat, completionTokens: nat, cost: real, content: string, calls: seq<ToolCall>)

  datatype World = World(
    reply: nat -> Reply,
    freshId: (nat, nat) -> string,
    output: (nat, nat) -> string,
    prune: (nat, nat, string) -> string,
    compress: (ToolCall, string) -> string,
    todosIn: string -> seq<string>,
    reminder: seq<string> -> string)

  datatype Config = Config(tools: set<string>, pruning: bool, compression: bool)

  datatype Loop = Loop(
    iteration: nat, messages: seq<Message>, counts: map<string, nat>, todos: seq<string>,
    contents: seq<string>, promptTokens: nat, completionTokens: nat, cost: real,
    sent: seq<seq<Message>>, requested: seq<ToolCall>, executed: seq<ToolCall>, finished: bool)

  const MAX_ITERATIONS: nat := 100

  function Begin(messages: seq<Message>): Loop {
    Loop(0, messages, map[], [], [], 0, 0, 0.0, [], [], [], false)
  }

  // ------------------------------------------------------------------ one iteration

  function FillIds(w: World, n: nat, calls: seq<ToolCall>): (r: seq<ToolCall>)
    ensures |r| == |calls|
  {
    seq(|calls|, i requires 0 <= i < |calls| =>
      if calls[i].id == "" then calls[i].(id := w.freshId(n, i)) else calls[i])
  }

  function OnlyTools(tools: set<string>, calls: seq<ToolCall>): seq<ToolCall> {
    if calls == [] then []
    else if calls[0].name in tools then [calls[0]] + OnlyTools(tools, calls[1..])
    else OnlyTools(tools, calls[1..])
  }

  /** The tool calls of iteration `n` that the loop handles. */
  function Batch(cfg: Config, w: World, n: nat): seq<ToolCall> {
    OnlyTools(cfg.tools, FillIds(w, n, w.reply(n).calls))
  }

  /** One result per executed call, in order, under the call's id. */
  function Outputs(w: World, n: nat, calls: seq<ToolCall>): (r: seq<Result>)
    ensures |r| == |calls|
    ensures forall i | 0 <= i < |r| :: r[i] == Result(calls[i].id, w.output(n, i))
  {
    seq(|calls|, i requires 0 <= i < |calls| => Result(calls[i].id, w.output(n, i)))
  }

  function Results(w: World, n: nat, counts: map<string, nat>, batch: seq<ToolCall>): (r: seq<Result>)
    ensures |r| == |batch|
  {
    var flags := Flags(counts, batch);
    var executed := Outputs(w, n, Select(batch, flags, false));
    MergeAlwaysCompletes(batch, flags, executed);
    Merge(batch, Refusals(Select(batch, flags, true)), executed)
  }

  /** Pruning may rewrite the text of a tool message and nothing else. */
  function PrunedMessage(w: World, n: nat, i: nat, m: Message): Message {
    if m.Tool? then Tool(m.result.(content := w.prune(n, i, m.result.content))) else m
  }

  function Pruned(cfg: Config, w: World, n: nat, messages: seq<Message>): (r: seq<Message>)
    ensures |r| == |messages|
    ensures forall i | 0 <= i < |r| :: r[i] == messages[i] || r[i] == PrunedMessage(w, n, i, messages[i])
  {
    if cfg.pruning && n > 1 && |messages| > 6 then
      seq(|messages|, i requires 0 <= i < |messages| => PrunedMessage(w, n, i, messages[i]))
    else messages
  }

  function ToolMessages(cfg: Config, w: World, batch: seq<ToolCall>, results: seq<Result>): (r: seq<Message>)
    requires |batch| == |results|
    ensures |r| == |results|
    ensures forall i | 0 <= i < |r| :: r[i].Tool? && r[i].result.id == results[i].id
  {
    seq(|results|, i requires 0 <= i < |results| =>
      Tool(if cfg.compression then results[i].(content := w.compress(batch[i], results[i].content)) else results[i]))
  }

  /** What one iteration appends: the calls, then one tool message for each. */
  function Exchange(cfg: Config, w: World, n: nat, batch: seq<ToolCall>, results: seq<Result>): (r: seq<Message>)
    requires |batch| == |results|
    ensures forall i | 0 <= i < |r| :: r[i].Assistant? || r[i].Tool?
  {
    [Assistant(w.reply(n).content, batch)] + ToolMessages(cfg, w, batch, results)
  }

  /** The call is a todo update that succeeded with a non-empty list. */
  predicate Updates(w: World, tc: ToolCall, result: Result) {
    tc.name == "update_todos" && w.todosIn(result.content) != []
  }

  function LastUpdate(w: World, batch: seq<ToolCall>, results: seq<Result>): (r: Option<nat>)
    requires |batch| == |results|
    ensures r.Some? ==> r.value < |batch| && Updates(w, batch[r.value], results[r.value])
    ensures forall j | (if r.Some? then r.value + 1 else 0) <= j < |batch| :: !Updates(w, batch[j], results[j])
  {
    var n := |batch| - 1;
    if batch == [] then None
    else if Updates(w, batch[n], results[n]) then Some(n)
    else LastUpdate(w, batch[..n], results[..n])
  }

  /** The todos of the last update in the batch, the old ones if there is none. */
  function TodosAfter(w: World, todos: seq<string>, batch: seq<ToolCall>, results: seq<Result>): seq<string>
    requires |batch| == |results|
  {
    match LastUpdate(w, batch, results)
    case None => todos
    case Some(k) => w.todosIn(results[k].content)
  }

  function Outgoing(w: World, todos: seq<string>, messages: seq<Message>): seq<Message> {
    if todos == [] then messages
    else messages + [User("[CURRENT TODO STATUS - Follow this plan]\n" + w.reminder(todos))]
  }

  /** The iteration up to and including the model call. */
  function Called(cfg: Config, w: World, st: Loop): Loop {
    var n := st.iteration + 1;
    var messages := Pruned(cfg, w, n, st.messages);
    var reply := w.reply(n);
    st.(iteration := n, messages := messages, sent := st.sent + [Outgoing(w, st.todos, messages)],
        promptTokens := st.promptTokens + reply.promptTokens,
        completionTokens := st.completionTokens + reply.completionTokens,
        cost := st.cost + reply.cost,
        contents := if reply.content == "" then st.contents else st.contents + [reply.content])
  }

  function Round(cfg: Config, w: World, st: Loop): Loop {
    var st1 := Called(cfg, w, st);
    var n := st1.iteration;
    var batch := Batch(cfg, w, n);
    if batch == [] then st1.(finished := true)
    else Handled(cfg, w, st1, batch)
  }

  /** The iteration after the model call, on a non-empty batch. */
  function Handled(cfg: Config, w: World, st: Loop, batch: seq<ToolCall>): Loop {
    var results := Results(w, st.iteration, st.counts, batch);
    st.(counts := BumpAll(st.counts, batch),
        todos := TodosAfter(w, st.todos, batch, results),
        messages := st.messages + Exchange(cfg, w, st.iteration, batch, results),
        requested := st.requested + batch,
        executed := st.executed + Select(batch, Flags(st.counts, batch), false))
  }

  function RunLoop(cfg: Config, w: World, st: Loop): Loop
    decreases MAX_ITERATIONS - st.iteration
  {
    if st.finished || st.iteration >= MAX_ITERATIONS then st else RunLoop(cfg, w, Round(cfg, w, st))
  }

  method ScanTodos(
    w: World, todos0: seq<string>, batch: seq<ToolCall>, results: seq<Result>) returns (todos: seq<string>)
    requires |batch| == |results|
    ensures todos == TodosAfter(w, todos0, batch, results)
    ensures (forall k | 0 <= k < |batch| :: !Updates(w, batch[k], results[k])) ==> todos == todos0
    ensures forall k | 0 <= k < |batch| ::
      Updates(w, batch[k], results[k]) && (forall j | k < j < |batch| :: !Updates(w, batch[j], results[j])) ==>
        todos == w.todosIn(results[k].content)
  {
    todos := todos0;
    for i := 0 to |batch|
      invariant todos == TodosAfter(w, todos0, batch[..i], results[..i])
    {
      assert batch[..i + 1][..i] == batch[..i] && results[..i + 1][..i] == results[..i];
      if batch[i].name == "update_todos" && w.todosIn(results[i].content) != [] {
        todos := w.todosIn(results[i].content);
      }
    }
    assert batch[..|batch|] == batch && results[..|batch|] == results;
    LastUpdateIsLast(w, batch, results);
  }

  lemma {:induction false} LastUpdateIsLast(w: World, batch: seq<ToolCall>, results: seq<Result>)
    requires |batch| == |results|
    ensures forall k | 0 <= k < |batch| ::
      Updates(w, batch[k], results[k]) && (forall j | k < j < |batch| :: !Updates(w, batch[j], results[j])) ==>
        LastUpdate(w, batch, results) == Some(k)
  {
  }

  method AppendExchange(
    cfg: Config, w: World, n: nat, messages0: seq<Message>, batch: seq<ToolCall>, results: seq<Result>)
    returns (messages: seq<Message>)
    requires |batch| == |results|
    ensures messages == messages0 + Exchange(cfg, w, n, batch, results)
  {
    messages := messages0 + [Assistant(w.reply(n).content, batch)];
    ghost var rendered := ToolMessages(cfg, w, batch, results);
    for i := 0 to |results|
      invariant messages == messages0 + ([Assistant(w.reply(n).content, batch)] + rendered[..i])
    {
      var content := if cfg.compression then w.compress(batch[i], results[i].content) else results[i].content;
      messages := messages + [Tool(Result(results[i].id, content))];
    }
  }

  /** One iteration; it ends the loop when the model makes no call the loop handles. */
  method Iterate(cfg: Config, w: World, before: Loop) returns (st: Loop)
    ensures st == Round(cfg, w, before)
  {
    st := Called(cfg, w, before);
    var n := st.iteration;
    var batch := Batch(cfg, w, n);
    if w.reply(n).calls == [] || batch == [] {
      st := st.(finished := true);
      return;
    }
    var counts, toExecute, blocked := PartitionCalls(before.counts, batch);
    var executed := if toExecute == [] then [] else Outputs(w, n, toExecute);
    MergeAlwaysCompletes(batch, Flags(before.counts, batch), executed);
    var results := MergeResults(batch, blocked, executed);
    assert results == Results(w, n, before.counts, batch);
    var todos := ScanTodos(w, before.todos, batch, results);
    var messages := AppendExchange(cfg, w, n, st.messages, batch, results);
    st := st.(counts := counts, todos := todos, messages := messages,
              requested := before.requested + batch, executed := before.executed + toExecute);
  }

  method RunAgentLoop(cfg: Config, w: World, initial: seq<Message>) returns (st: Loop)
    ensures st == RunLoop(cfg, w, Begin(initial))
  {
    st := Begin(initial);
    while !st.finished && st.iteration < MAX_ITERATIONS
      invariant RunLoop(cfg, w, st) == RunLoop(cfg, w, Begin(initial))
      decreases MAX_ITERATIONS - st.iteration
    {
      st := Iterate(cfg, w, st);
    }
  }

  // ---------------------------------------------------------------- loop detection

  function ReadsOf(calls: seq<ToolCall>, path: string): nat {
    if calls == [] then 0
    else Reads(calls[0], path) + ReadsOf(calls[1..], path)
  }

  lemma {:induction false} ReadsConcat(a: seq<ToolCall>, b: seq<ToolCall>, path: string)
    ensures ReadsOf(a + b, path) == ReadsOf(a, path) + ReadsOf(b, path)
  {
    if a == [] { assert a + b == b; }
    else {
      assert (a + b)[1..] == a[1..] + b;
      ReadsConcat(a[1..], b, path);
    }
  }

  function Capped(k: nat): nat {
    if k < MAX_READS_PER_FILE then k else MAX_READS_PER_FILE
  }

  lemma {:induction false} BatchReads(counts: map<string, nat>, calls: seq<ToolCall>, path: string)
    ensures Count(BumpAll(counts, calls), path) == Count(counts, path) + ReadsOf(calls, path)
    ensures Capped(Count(counts, path)) + ReadsOf(Select(calls, Flags(counts, calls), false), path)
            == Capped(Count(counts, path) + ReadsOf(calls, path))
    decreases |calls|
  {
    if calls != [] {
      BatchReads(Bump(counts, calls[0]), calls[1..], path);
      AllowedReads(counts, calls, path);
      OneCallReads(counts, calls[0], path);
    }
  }

  function Reads(tc: ToolCall, path: string): nat {
    if tc.name == "read_file" && tc.path == path then 1 else 0
  }

  /** One call: its read is counted, and let through until two were. */
  lemma {:induction false} OneCallReads(counts: map<string, nat>, tc: ToolCall, path: string)
    ensures Count(Bump(counts, tc), path) == Count(counts, path) + Reads(tc, path)
    ensures Capped(Count(counts, path)) + (if IsRefused(counts, tc) then 0 else Reads(tc, path))
         == Capped(Count(Bump(counts, tc), path))
  {
  }

  lemma {:induction false} AllowedReads(counts: map<string, nat>, calls: seq<ToolCall>, path: string)
    requires calls != []
    ensures var tc, allowed := calls[0], Select(calls, Flags(counts, calls), false);
      var rest := Select(calls[1..], Flags(Bump(counts, tc), calls[1..]), false);
      ReadsOf(allowed, path) == ReadsOf(rest, path)
        + if IsRefused(counts, tc) then 0 else Reads(tc, path)
  {
    var rest := Select(calls[1..], Flags(Bump(counts, calls[0]), calls[1..]), false);
    SelectHead(counts, calls, [], false);
    assert [] + Select(calls, Flags(counts, calls), false) == Select(calls, Flags(counts, calls), false);
    if !IsRefused(counts, calls[0]) {
      assert [] + [calls[0]] + rest == [calls[0]] + rest && ([calls[0]] + rest)[1..] == rest;
    } else {
      assert [] + rest == rest;
    }
  }

  // -------------------------------------------------------------------- transcripts

  predicate Answers(calls: seq<ToolCall>, ms: seq<Message>) {
    |ms| == |calls| && forall i | 0 <= i < |calls| :: ms[i].Tool? && ms[i].result.id == calls[i].id
  }

  /** Every assistant message is followed by exactly one tool message for each of its calls,
      in order and under the call's id, and no tool message stands anywhere else. */
  predicate WellFormed(ms: seq<Message>)
    decreases |ms|
  {
    if ms == [] then true
    else match ms[0]
      case Tool(_) => false
      case Assistant(_, calls) =>
        |calls| < |ms| && Answers(calls, ms[1..1 + |calls|]) && WellFormed(ms[1 + |calls|..])
      case _ => WellFormed(ms[1..])
  }

  lemma {:induction false} WellFormedConcat(a: seq<Message>, b: seq<Message>)
    requires WellFormed(a) && WellFormed(b)
    ensures WellFormed(a + b)
    decreases |a|
  {
    if a == [] { assert a + b == b; }
    else {
      var k := if a[0].Assistant? then 1 + |a[0].calls| else 1;
      ConcatSlices(a, b, k);
      WellFormedConcat(a[k..], b);
    }
  }

  lemma {:induction false} ConcatSlices(a: seq<Message>, b: seq<Message>, k: nat)
    requires 0 < k <= |a|
    ensures (a + b)[1..k] == a[1..k] && (a + b)[k..] == a[k..] + b
  {
  }

  /** Equal up to the text of tool messages. */
  ghost predicate SameShape(a: seq<Message>, b: seq<Message>) {
    |a| == |b| && forall i | 0 <= i < |a| :: SameMessage(a[i], b[i])
  }

  predicate SameMessage(a: Message, b: Message) {
    a == b || (a.Tool? && b.Tool? && a.result.id == b.result.id)
  }

  lemma {:induction false} ShapeKeepsWellFormed(a: seq<Message>, b: seq<Message>)
    requires SameShape(a, b) && WellFormed(a)
    ensures WellFormed(b)
    decreases |a|
  {
    if a != [] {
      var k := if a[0].Assistant? then 1 + |a[0].calls| else 1;
      ShapeKeepsWellFormed(a[k..], b[k..]);
      if a[0].Assistant? {
        assert forall i | 0 <= i < |a[0].calls| :: a[1..k][i] == a[1 + i] && b[1..k][i] == b[1 + i];
      }
    }
  }

  /** Past the messages the loop started from there are only the agent's own: no reminder. */
  ghost predicate Persistent(initial: seq<Message>, ms: seq<Message>) {
    && |initial| <= |ms| && SameShape(initial, ms[..|initial|])
    && forall i | |initial| <= i < |ms| :: ms[i].Assistant? || ms[i].Tool?
  }

  /** What the model is shown: a well-formed persistent transcript, with at most the todo
      reminder added as one last user message. */
  ghost predicate Shown(initial: seq<Message>, ms: seq<Message>) {
    WellFormed(ms) && Reminded(initial, ms)
  }

  lemma {:induction false} OutgoingIsShown(w: World, initial: seq<Message>, todos: seq<string>, ms: seq<Message>)
    requires WellFormed(ms) && Persistent(initial, ms)
    ensures Shown(initial, Outgoing(w, todos, ms))
  {
    if todos != [] {
      var out := Outgoing(w, todos, ms);
      assert out[..|out| - 1] == ms;
      WellFormedConcat(ms, [out[|out| - 1]]);
    }
  }

  // ------------------------------------------------------------------ the whole run

  function PromptSum(w: World, n: nat): nat {
    if n == 0 then 0 else PromptSum(w, n - 1) + w.reply(n).promptTokens
  }

  function CompletionSum(w: World, n: nat): nat {
    if n == 0 then 0 else CompletionSum(w, n - 1) + w.reply(n).completionTokens
  }

  function CostSum(w: World, n: nat): real {
    if n == 0 then 0.0 else CostSum(w, n - 1) + w.reply(n).cost
  }

  ghost predicate Totals(w: World, st: Loop) {
    && |st.sent| == st.iteration
    && st.promptTokens == PromptSum(w, st.iteration)
    && st.completionTokens == CompletionSum(w, st.iteration)
    && st.cost == CostSum(w, st.iteration)
  }

  ghost predicate Bounded(counts: map<string, nat>, requested: seq<ToolCall>, executed: seq<ToolCall>) {
    forall path: string ::
      && Count(counts, path) == ReadsOf(requested, path)
      && ReadsOf(executed, path) == Capped(ReadsOf(requested, path))
  }

  /** For every path, the reads executed number the smaller of two and the reads requested. */
  ghost predicate ReadBound(st: Loop) {
    Bounded(st.counts, st.requested, st.executed)
  }

  ghost predicate AllShown(initial: seq<Message>, sent: seq<seq<Message>>) {
    forall k | 0 <= k < |sent| :: Shown(initial, sent[k])
  }

  ghost predicate Sound(initial: seq<Message>, ms: seq<Message>) {
    WellFormed(ms) && Persistent(initial, ms)
  }

  ghost predicate Transcripts(initial: seq<Message>, st: Loop) {
    Sound(initial, st.messages) && AllShown(initial, st.sent)
  }

  /** What an iteration does to the totals, whether or not it is the last. */
  lemma {:induction false} RoundCounts(cfg: Config, w: World, st: Loop)
    ensures var st', st1 := Round(cfg, w, st), Called(cfg, w, st);
      && st'.iteration == st1.iteration && st'.sent == st1.sent && st'.cost == st1.cost
      && st'.promptTokens == st1.promptTokens && st'.completionTokens == st1.completionTokens
  {
  }

  lemma {:induction false} RoundKeepsTotals(cfg: Config, w: World, st: Loop)
    requires Totals(w, st)
    ensures Totals(w, Round(cfg, w, st))
  {
    RoundCounts(cfg, w, st);
    CalledKeepsTotals(cfg, w, st);
    SameTotals(w, Called(cfg, w, st), Round(cfg, w, st));
  }

  lemma {:induction false} CalledKeepsTotals(cfg: Config, w: World, st: Loop)
    requires Totals(w, st)
    ensures Totals(w, Called(cfg, w, st))
  {
  }

  lemma {:induction false} SameTotals(w: World, a: Loop, b: Loop)
    requires Totals(w, a)
    requires b.iteration == a.iteration && b.sent == a.sent && b.cost == a.cost
    requires b.promptTokens == a.promptTokens && b.completionTokens == a.completionTokens
    ensures Totals(w, b)
  {
  }

  lemma {:induction false} BatchKeepsBound(
    counts: map<string, nat>, requested: seq<ToolCall>, executed: seq<ToolCall>, batch: seq<ToolCall>)
    requires Bounded(counts, requested, executed)
    ensures Bounded(BumpAll(counts, batch), requested + batch, executed + Select(batch, Flags(counts, batch), false))
  {
    var allowed := Select(batch, Flags(counts, batch), false);
    forall path: string
      ensures Count(BumpAll(counts, batch), path) == ReadsOf(requested + batch, path)
      ensures ReadsOf(executed + allowed, path) == Capped(ReadsOf(requested + batch, path))
    {
      BatchReads(counts, batch, path);
      ReadsConcat(requested, batch, path);
      ReadsConcat(executed, allowed, path);
    }
  }

  lemma {:induction false} RoundKeepsReadBound(cfg: Config, w: World, st: Loop)
    requires ReadBound(st)
    ensures ReadBound(Round(cfg, w, st))
  {
    var batch := Batch(cfg, w, st.iteration + 1);
    RoundBatch(cfg, w, st);
    BatchKeepsBound(st.counts, st.requested, st.executed, batch);
  }

  lemma {:induction false} RoundBatch(cfg: Config, w: World, st: Loop)
    ensures var batch, st' := Batch(cfg, w, st.iteration + 1), Round(cfg, w, st);
      && st'.counts == BumpAll(st.counts, batch) && st'.requested == st.requested + batch
      && st'.executed == st.executed + Select(batch, Flags(st.counts, batch), false)
  {
    if Batch(cfg, w, st.iteration + 1) == [] {
      RoundOnNothing(cfg, w, st);
    } else {
      CalledKeeps(cfg, w, st);
      HandledBatch(cfg, w, Called(cfg, w, st), Batch(cfg, w, st.iteration + 1));
    }
  }

  lemma {:induction false} RoundOnNothing(cfg: Config, w: World, st: Loop)
    requires Batch(cfg, w, st.iteration + 1) == []
    ensures var batch, st' := Batch(cfg, w, st.iteration + 1), Round(cfg, w, st);
      && st'.counts == BumpAll(st.counts, batch) && st'.requested == st.requested + batch
      && st'.executed == st.executed + Select(batch, Flags(st.counts, batch), false)
  {
    CalledKeeps(cfg, w, st);
    EmptyBatch(st.counts, [], st.requested, st.executed);
  }

  lemma {:induction false} HandledBatch(cfg: Config, w: World, st: Loop, batch: seq<ToolCall>)
    ensures var st' := Handled(cfg, w, st, batch);
      && st'.counts == BumpAll(st.counts, batch) && st'.requested == st.requested + batch
      && st'.executed == st.executed + Select(batch, Flags(st.counts, batch), false)
  {
  }

  lemma {:induction false} CalledKeeps(cfg: Config, w: World, st: Loop)
    ensures var st1 := Called(cfg, w, st);
      && st1.iteration == st.iteration + 1 && st1.counts == st.counts && st1.todos == st.todos
      && st1.requested == st.requested && st1.executed == st.executed
  {
  }

  lemma {:induction false} EmptyBatch(
    counts: map<string, nat>, batch: seq<ToolCall>, requested: seq<ToolCall>, executed: seq<ToolCall>)
    requires batch == []
    ensures BumpAll(counts, batch) == counts && requested + batch == requested
    ensures executed + Select(batch, Flags(counts, batch), false) == executed
  {
  }

  lemma {:induction false} PruningKeepsTranscript(
    cfg: Config, w: World, n: nat, initial: seq<Message>, ms: seq<Message>)
    requires WellFormed(ms) && Persistent(initial, ms)
    ensures WellFormed(Pruned(cfg, w, n, ms)) && Persistent(initial, Pruned(cfg, w, n, ms))
  {
    ShapeKeepsWellFormed(ms, Pruned(cfg, w, n, ms));
    PruningKeepsPersistent(cfg, w, n, initial, ms);
  }

  lemma {:induction false} PruningKeepsPersistent(
    cfg: Config, w: World, n: nat, initial: seq<Message>, ms: seq<Message>)
    requires Persistent(initial, ms)
    ensures Persistent(initial, Pruned(cfg, w, n, ms))
  {
    var r := Pruned(cfg, w, n, ms);
    assert SameShape(initial, r[..|initial|]) by {
      forall i | 0 <= i < |initial|
        ensures initial[i] == r[i] || (initial[i].Tool? && r[i].Tool? && initial[i].result.id == r[i].result.id)
      {
        assert ms[..|initial|][i] == ms[i];
      }
    }
  }

  lemma {:induction false} ResultsLabelledIff(w: World, n: nat, counts: map<string, nat>, batch: seq<ToolCall>)
    ensures Carries(Results(w, n, counts, batch), batch) <==> Labels(counts, batch)
  {
    var flags := Flags(counts, batch);
    var toExecute := Select(batch, flags, false);
    MergeAlwaysCompletes(batch, flags, Outputs(w, n, toExecute));
    IdsMatchIffInStep(batch, Select(batch, flags, true), toExecute, Outputs(w, n, toExecute));
  }

  lemma {:induction false} AnswersIffCarries(cfg: Config, w: World, batch: seq<ToolCall>, results: seq<Result>)
    requires |batch| == |results|
    ensures Answers(batch, ToolMessages(cfg, w, batch, results)) <==> Carries(results, batch)
  {
    var ms := ToolMessages(cfg, w, batch, results);
    assert forall i | 0 <= i < |ms| :: ms[i].Tool? && ms[i].result.id == results[i].id;
  }

  /** The messages one iteration appends are well formed exactly when its batch is in step. */
  lemma {:induction false} ExchangeIsWellFormedIff(
    cfg: Config, w: World, n: nat, counts: map<string, nat>, batch: seq<ToolCall>)
    ensures WellFormed(Exchange(cfg, w, n, batch, Results(w, n, counts, batch))) <==> Labels(counts, batch)
  {
    var results := Results(w, n, counts, batch);
    ResultsLabelledIff(w, n, counts, batch);
    AnswersIffCarries(cfg, w, batch, results);
    CallsThenAnswers(Assistant(w.reply(n).content, batch), ToolMessages(cfg, w, batch, results));
  }

  lemma {:induction false} CallsThenAnswers(m: Message, answers: seq<Message>)
    requires m.Assistant? && |answers| == |m.calls|
    ensures WellFormed([m] + answers) <==> Answers(m.calls, answers)
  {
    var ms := [m] + answers;
    assert ms[1..1 + |m.calls|] == answers && ms[1 + |m.calls|..] == [];
  }

  // ---------------------------------------------------------------- broken transcripts

  /** The calls at `k` have all their tool messages, but not under their ids. */
  ghost predicate BrokenAt(ms: seq<Message>, k: nat) {
    && k < |ms| && WellFormed(ms[..k]) && ms[k].Assistant? && k + |ms[k].calls| < |ms|
    && !Answers(ms[k].calls, ms[k + 1..k + 1 + |ms[k].calls|])
  }

  lemma {:induction false} WellFormedRest(a: seq<Message>, b: seq<Message>)
    requires WellFormed(a) && WellFormed(a + b)
    ensures WellFormed(b)
    decreases |a|
  {
    if a == [] { assert a + b == b; }
    else {
      var k := if a[0].Assistant? then 1 + |a[0].calls| else 1;
      ConcatSlices(a, b, k);
      WellFormedRest(a[k..], b);
    }
  }

  lemma {:induction false} BrokenIsIllFormed(ms: seq<Message>, k: nat)
    requires BrokenAt(ms, k)
    ensures !WellFormed(ms)
  {
    if WellFormed(ms) { AnsweredAt(ms, k); }
  }

  lemma {:induction false} AnsweredAt(ms: seq<Message>, k: nat)
    requires WellFormed(ms) && k < |ms| && WellFormed(ms[..k]) && ms[k].Assistant? && k + |ms[k].calls| < |ms|
    ensures Answers(ms[k].calls, ms[k + 1..k + 1 + |ms[k].calls|])
  {
    assert ms == ms[..k] + ms[k..];
    WellFormedRest(ms[..k], ms[k..]);
    SliceOfRest(ms, k, |ms[k].calls|);
  }

  lemma {:induction false} SliceOfRest(ms: seq<Message>, k: nat, n: nat)
    requires k + n < |ms|
    ensures ms[k..][1..1 + n] == ms[k + 1..k + 1 + n] && ms[k..][0] == ms[k]
  {
  }

  lemma {:induction false} SliceKeepsShape(a: seq<Message>, b: seq<Message>, lo: nat, hi: nat)
    requires SameShape(a, b) && lo <= hi <= |a|
    ensures SameShape(a[lo..hi], b[lo..hi])
  {
  }

  lemma {:induction false} ShapeKeepsAnswers(calls: seq<ToolCall>, a: seq<Message>, b: seq<Message>)
    requires SameShape(a, b)
    ensures Answers(calls, a) <==> Answers(calls, b)
  {
    assert forall i | 0 <= i < |a| :: SameMessage(a[i], b[i]);
  }

  lemma {:induction false} BrokenKeepsShape(a: seq<Message>, b: seq<Message>, k: nat)
    requires BrokenAt(a, k) && SameShape(a, b)
    ensures BrokenAt(b, k)
  {
    var n := |a[k].calls|;
    ShapeKeepsWellFormed(a[..k], b[..k]);
    assert SameMessage(a[k], b[k]);
    SliceKeepsShape(a, b, k + 1, k + 1 + n);
    ShapeKeepsAnswers(a[k].calls, a[k + 1..k + 1 + n], b[k + 1..k + 1 + n]);
  }

  lemma {:induction false} BrokenExtends(ms: seq<Message>, added: seq<Message>, k: nat)
    requires BrokenAt(ms, k)
    ensures BrokenAt(ms + added, k)
  {
    var n := |ms[k].calls|;
    assert (ms + added)[..k] == ms[..k] && (ms + added)[k + 1..k + 1 + n] == ms[k + 1..k + 1 + n];
  }

  /** A batch out of step breaks the transcript at the calls it appends. */
  lemma {:induction false} UnlabelledBreaks(
    cfg: Config, w: World, n: nat, ms: seq<Message>, counts: map<string, nat>, batch: seq<ToolCall>)
    requires WellFormed(ms) && !Labels(counts, batch)
    ensures BrokenAt(ms + Exchange(cfg, w, n, batch, Results(w, n, counts, batch)), |ms|)
  {
    var results := Results(w, n, counts, batch);
    ResultsLabelledIff(w, n, counts, batch);
    AnswersIffCarries(cfg, w, batch, results);
    UnansweredBreaks(ms, Assistant(w.reply(n).content, batch), ToolMessages(cfg, w, batch, results));
  }

  lemma {:induction false} UnansweredBreaks(ms: seq<Message>, m: Message, answers: seq<Message>)
    requires WellFormed(ms) && m.Assistant? && |answers| == |m.calls| && !Answers(m.calls, answers)
    ensures BrokenAt(ms + ([m] + answers), |ms|)
  {
    var all := ms + ([m] + answers);
    assert all[..|ms|] == ms && all[|ms| + 1..|ms| + 1 + |answers|] == answers;
  }

  lemma {:induction false} RoundKeepsBroken(cfg: Config, w: World, st: Loop, k: nat)
    requires BrokenAt(st.messages, k)
    ensures BrokenAt(Round(cfg, w, st).messages, k)
  {
    var n := st.iteration + 1;
    var pruned := Pruned(cfg, w, n, st.messages);
    BrokenKeepsShape(st.messages, pruned, k);
    RoundMessages(cfg, w, st);
    BrokenExtends(pruned, Exchange(cfg, w, n, Batch(cfg, w, n), Results(w, n, st.counts, Batch(cfg, w, n))), k);
  }

  lemma {:induction false} RunKeepsBroken(cfg: Config, w: World, st: Loop, k: nat)
    requires BrokenAt(st.messages, k)
    ensures BrokenAt(RunLoop(cfg, w, st).messages, k)
    decreases MAX_ITERATIONS - st.iteration
  {
    if !st.finished && st.iteration < MAX_ITERATIONS {
      RoundKeepsBroken(cfg, w, st, k);
      RunKeepsBroken(cfg, w, Round(cfg, w, st), k);
    }
  }

  /** The batch of the next iteration is in step. */
  predicate LabelledBatch(cfg: Config, w: World, st: Loop) {
    Labels(st.counts, Batch(cfg, w, st.iteration + 1))
  }

  /** An iteration on a batch out of step breaks the transcript. */
  lemma {:induction false} RoundBreaks(cfg: Config, w: World, initial: seq<Message>, st: Loop)
    requires Transcripts(initial, st) && !LabelledBatch(cfg, w, st)
    ensures exists k :: BrokenAt(Round(cfg, w, st).messages, k)
  {
    var n := st.iteration + 1;
    var batch, pruned := Batch(cfg, w, n), Pruned(cfg, w, n, st.messages);
    PruningKeepsTranscript(cfg, w, n, initial, st.messages);
    UnlabelledBreaks(cfg, w, n, pruned, st.counts, batch);
    RoundMessages(cfg, w, st);
    assert BrokenAt(Round(cfg, w, st).messages, |pruned|);
  }

  // -------------------------------------------------------------- sound transcripts

  lemma {:induction false} ExtendedTranscript(initial: seq<Message>, ms: seq<Message>, added: seq<Message>)
    requires WellFormed(ms) && Persistent(initial, ms) && WellFormed(added)
    requires forall i | 0 <= i < |added| :: added[i].Assistant? || added[i].Tool?
    ensures WellFormed(ms + added) && Persistent(initial, ms + added)
  {
    WellFormedConcat(ms, added);
    assert (ms + added)[..|initial|] == ms[..|initial|];
  }

  lemma {:induction false} SentStep(cfg: Config, w: World, n: nat, initial: seq<Message>, todos: seq<string>,
                 ms: seq<Message>, sent: seq<seq<Message>>)
    requires Sound(initial, ms) && AllShown(initial, sent)
    ensures AllShown(initial, sent + [Outgoing(w, todos, Pruned(cfg, w, n, ms))])
  {
    PruningKeepsTranscript(cfg, w, n, initial, ms);
    OutgoingIsShown(w, initial, todos, Pruned(cfg, w, n, ms));
  }

  lemma {:induction false} MessagesStep(cfg: Config, w: World, n: nat, initial: seq<Message>, ms: seq<Message>,
                     counts: map<string, nat>, batch: seq<ToolCall>)
    requires Sound(initial, ms) && Labels(counts, batch)
    ensures Sound(initial, Pruned(cfg, w, n, ms))
    ensures Sound(initial, Pruned(cfg, w, n, ms) + Exchange(cfg, w, n, batch, Results(w, n, counts, batch)))
  {
    PruningKeepsTranscript(cfg, w, n, initial, ms);
    ExchangeIsWellFormedIff(cfg, w, n, counts, batch);
    ExtendedTranscript(initial, Pruned(cfg, w, n, ms), Exchange(cfg, w, n, batch, Results(w, n, counts, batch)));
  }

  /** One iteration keeps every transcript sound when its batch is in step. */
  lemma {:induction false} RoundKeepsTranscripts(cfg: Config, w: World, initial: seq<Message>, st: Loop)
    requires Transcripts(initial, st)
    requires LabelledBatch(cfg, w, st)
    ensures Transcripts(initial, Round(cfg, w, st))
  {
    var n := st.iteration + 1;
    SentStep(cfg, w, n, initial, st.todos, st.messages, st.sent);
    MessagesStep(cfg, w, n, initial, st.messages, st.counts, Batch(cfg, w, n));
    RoundMessages(cfg, w, st);
  }

  lemma {:induction false} RoundMessages(cfg: Config, w: World, st: Loop)
    ensures var n, st' := st.iteration + 1, Round(cfg, w, st);
      var batch, pruned := Batch(cfg, w, n), Pruned(cfg, w, n, st.messages);
      && st'.sent == st.sent + [Outgoing(w, st.todos, pruned)]
      && st'.messages ==
         if batch == [] then pruned else pruned + Exchange(cfg, w, n, batch, Results(w, n, st.counts, batch))
  {
    CalledKeeps(cfg, w, st);
    CalledMessages(cfg, w, st);
    HandledMessages(cfg, w, Called(cfg, w, st), Batch(cfg, w, st.iteration + 1));
  }

  lemma {:induction false} CalledMessages(cfg: Config, w: World, st: Loop)
    ensures var pruned, st1 := Pruned(cfg, w, st.iteration + 1, st.messages), Called(cfg, w, st);
      st1.messages == pruned && st1.sent == st.sent + [Outgoing(w, st.todos, pruned)]
  {
  }

  lemma {:induction false} HandledMessages(cfg: Config, w: World, st: Loop, batch: seq<ToolCall>)
    ensures var st', n := Handled(cfg, w, st, batch), st.iteration;
      && st'.sent == st.sent
      && st'.messages == st.messages + Exchange(cfg, w, n, batch, Results(w, n, st.counts, batch))
  {
  }

  /** Over every run, for every path, the reads executed number the smaller of two and the
      reads requested; and the totals are the sums over the model calls made. */
  lemma {:induction false} RunBounds(cfg: Config, w: World, st: Loop)
    requires Totals(w, st) && ReadBound(st)
    ensures Totals(w, RunLoop(cfg, w, st)) && ReadBound(RunLoop(cfg, w, st))
    decreases MAX_ITERATIONS - st.iteration
  {
    if !st.finished && st.iteration < MAX_ITERATIONS {
      RoundKeepsTotals(cfg, w, st);
      RoundKeepsReadBound(cfg, w, st);
      RunBounds(cfg, w, Round(cfg, w, st));
    }
  }

  /** Every batch of the run is in step. */
  ghost predicate LabelledRun(cfg: Config, w: World, st: Loop)
    decreases MAX_ITERATIONS - st.iteration
  {
    st.finished || st.iteration >= MAX_ITERATIONS ||
    (LabelledBatch(cfg, w, st) && LabelledRun(cfg, w, Round(cfg, w, st)))
  }

  lemma {:induction false} DistinctIsLabelled(counts: map<string, nat>, batch: seq<ToolCall>)
    requires Distinct(batch)
    ensures Labels(counts, batch)
  {
    DistinctIsAligned(batch, Flags(counts, batch));
    AlignedIsInStep(batch, Flags(counts, batch));
  }

  ghost predicate DistinctReplies(cfg: Config, w: World) {
    forall n: nat :: Distinct(Batch(cfg, w, n))
  }

  lemma {:induction false} DistinctReplyIsLabelled(cfg: Config, w: World, st: Loop)
    requires DistinctReplies(cfg, w)
    ensures LabelledBatch(cfg, w, st)
  {
    DistinctIsLabelled(st.counts, Batch(cfg, w, st.iteration + 1));
  }

  /** If no reply repeats a call, every batch is in step. */
  lemma {:induction false} DistinctRunIsLabelled(cfg: Config, w: World, st: Loop)
    requires DistinctReplies(cfg, w)
    ensures LabelledRun(cfg, w, st)
    decreases MAX_ITERATIONS - st.iteration
  {
    if !st.finished && st.iteration < MAX_ITERATIONS {
      DistinctReplyIsLabelled(cfg, w, st);
      RunUnfolds(cfg, w, st);
      DistinctRunIsLabelled(cfg, w, Round(cfg, w, st));
    }
  }

  /** The transcripts of a run are all sound exactly when every batch is in step. */
  lemma {:induction false} RunTranscriptsIff(cfg: Config, w: World, initial: seq<Message>, st: Loop)
    requires Transcripts(initial, st)
    ensures Transcripts(initial, RunLoop(cfg, w, st)) <==> LabelledRun(cfg, w, st)
    decreases MAX_ITERATIONS - st.iteration
  {
    if !st.finished && st.iteration < MAX_ITERATIONS {
      RunUnfolds(cfg, w, st);
      if LabelledBatch(cfg, w, st) {
        RoundKeepsTranscripts(cfg, w, initial, st);
        RunTranscriptsIff(cfg, w, initial, Round(cfg, w, st));
      } else {
        RunBreaks(cfg, w, initial, st);
      }
    }
  }

  lemma {:induction false} RunUnfolds(cfg: Config, w: World, st: Loop)
    requires !st.finished && st.iteration < MAX_ITERATIONS
    ensures RunLoop(cfg, w, st) == RunLoop(cfg, w, Round(cfg, w, st))
    ensures Round(cfg, w, st).iteration == st.iteration + 1
    ensures LabelledRun(cfg, w, st) <==> LabelledBatch(cfg, w, st) && LabelledRun(cfg, w, Round(cfg, w, st))
  {
    RoundCounts(cfg, w, st);
  }

  lemma {:induction false} RunBreaks(cfg: Config, w: World, initial: seq<Message>, st: Loop)
    requires Transcripts(initial, st) && !LabelledBatch(cfg, w, st)
    ensures !WellFormed(RunLoop(cfg, w, Round(cfg, w, st)).messages)
  {
    var next := Round(cfg, w, st);
    RoundBreaks(cfg, w, initial, st);
    var k :| BrokenAt(next.messages, k);
    RunKeepsBroken(cfg, w, next, k);
    BrokenIsIllFormed(RunLoop(cfg, w, next).messages, k);
  }

  // ------------------------------------------------------------ no reminder is kept

  /** What is sent: the persistent transcript, or it and one last user message. */
  ghost predicate Reminded(initial: seq<Message>, ms: seq<Message>) {
    Persistent(initial, ms) || (ms != [] && ms[|ms| - 1].User? && Persistent(initial, ms[..|ms| - 1]))
  }

  ghost predicate NoReminderKept(initial: seq<Message>, st: Loop) {
    Persistent(initial, st.messages) && forall k | 0 <= k < |st.sent| :: Reminded(initial, st.sent[k])
  }

  lemma {:induction false} OutgoingIsReminded(w: World, initial: seq<Message>, todos: seq<string>, ms: seq<Message>)
    requires Persistent(initial, ms)
    ensures Reminded(initial, Outgoing(w, todos, ms))
  {
    var out := Outgoing(w, todos, ms);
    assert todos != [] ==> out[..|out| - 1] == ms;
  }

  lemma {:induction false} ExtendedIsPersistent(initial: seq<Message>, ms: seq<Message>, added: seq<Message>)
    requires Persistent(initial, ms) && forall i | 0 <= i < |added| :: added[i].Assistant? || added[i].Tool?
    ensures Persistent(initial, ms + added)
  {
    assert (ms + added)[..|initial|] == ms[..|initial|];
  }

  lemma {:induction false} RoundKeepsNoReminder(cfg: Config, w: World, initial: seq<Message>, st: Loop)
    requires NoReminderKept(initial, st)
    ensures NoReminderKept(initial, Round(cfg, w, st))
  {
    var n := st.iteration + 1;
    var batch, pruned := Batch(cfg, w, n), Pruned(cfg, w, n, st.messages);
    RoundMessages(cfg, w, st);
    PruningKeepsPersistent(cfg, w, n, initial, st.messages);
    OutgoingIsReminded(w, initial, st.todos, pruned);
    ExtendedIsPersistent(initial, pruned, Exchange(cfg, w, n, batch, Results(w, n, st.counts, batch)));
  }

  /** In every run, whatever the batches: past the messages it started from, the transcript
      kept holds only calls and their results, and what was sent is that transcript with at
      most one todo reminder at its end. */
  lemma {:induction false} RunKeepsNoReminder(cfg: Config, w: World, initial: seq<Message>, st: Loop)
    requires NoReminderKept(initial, st)
    ensures NoReminderKept(initial, RunLoop(cfg, w, st))
    decreases MAX_ITERATIONS - st.iteration
  {
    if !st.finished && st.iteration < MAX_ITERATIONS {
      RoundKeepsNoReminder(cfg, w, initial, st);
      RunUnfolds(cfg, w, st);
      RunKeepsNoReminder(cfg, w, initial, Round(cfg, w, st));
    }
  }

  lemma {:induction false} NothingKeptAtFirst(initial: seq<Message>)
    ensures NoReminderKept(initial, Begin(initial))
  {
    assert initial[..|initial|] == initial;
  }

  /** The loop from a well-formed conversation, in every run: the totals are the sums over
      the model calls made, the read bound holds, and no reminder is kept; and the
      transcripts, those shown to the model and the one kept, are all well formed exactly
      when every batch is in step. */
  lemma {:induction false} AgentRun(cfg: Config, w: World, initial: seq<Message>)
    requires WellFormed(initial)
    ensures var st := RunLoop(cfg, w, Begin(initial));
      && st.iteration <= MAX_ITERATIONS && Totals(w, st) && ReadBound(st) && NoReminderKept(initial, st)
      && (Transcripts(initial, st) <==> LabelledRun(cfg, w, Begin(initial)))
  {
    RunBounds(cfg, w, Begin(initial));
    RunStops(cfg, w, Begin(initial));
    NothingKeptAtFirst(initial);
    RunKeepsNoReminder(cfg, w, initial, Begin(initial));
    RunTranscriptsIff(cfg, w, initial, Begin(initial));
  }

  /** A run that breaks: the first reply reads one file twice, makes another call and reads
      the file again. Whatever comes later, the transcript never is well formed again. */
  lemma {:induction false} RepeatedReadBreaksRun(cfg: Config, w: World, initial: seq<Message>, r: ToolCall, x: ToolCall)
    requires WellFormed(initial) && r.name in cfg.tools && x.name in cfg.tools
    requires r.name == "read_file" && x.name != "read_file" && r.id != "" && x.id != "" && x.id != r.id
    requires w.reply(1).calls == [r, r, x, r]
    ensures !WellFormed(RunLoop(cfg, w, Begin(initial)).messages)
  {
    var calls := [r, r, x, r];
    assert FillIds(w, 1, calls) == calls;
    KnownTools(cfg.tools, calls);
    RepeatIsOutOfStep(r, x);
    assert Begin(initial).iteration + 1 == 1 && !LabelledBatch(cfg, w, Begin(initial));
    assert initial[..|initial|] == initial;
    RunUnfolds(cfg, w, Begin(initial));
    RunBreaks(cfg, w, initial, Begin(initial));
  }

  lemma {:induction false} KnownTools(tools: set<string>, calls: seq<ToolCall>)
    requires forall c | c in calls :: c.name in tools
    ensures OnlyTools(tools, calls) == calls
  {
    if calls != [] {
      assert calls[0] in calls && forall c | c in calls[1..] :: c in calls;
      KnownTools(tools, calls[1..]);
    }
  }

  lemma {:induction false} RunStops(cfg: Config, w: World, st: Loop)
    requires st.iteration <= MAX_ITERATIONS
    ensures RunLoop(cfg, w, st).iteration <= MAX_ITERATIONS
    decreases MAX_ITERATIONS - st.iteration
  {
    if !st.finished && st.iteration < MAX_ITERATIONS { RunStops(cfg, w, Round(cfg, w, st)); }
  }
}
