/**
  What the coding-agent loop sends, appends and executes in each iteration, in terms of the
  replies, the tools and the texts themselves.
*/
module AgentLaws {
  import opened Common
  import opened ToolBatch
  import opened AgentLoop

  // -------------------------------------------------------------------- the calls handled

  lemma {:induction false} FilledAt(w: World, n: nat, calls: seq<ToolCall>, i: nat)
    requires i < |calls|
    ensures FillIds(w, n, calls)[i] == if calls[i].id == "" then calls[i].(id := w.freshId(n, i)) else calls[i]
  {
  }

  lemma {:induction false} OnlyToolsConcat(tools: set<string>, a: seq<ToolCall>, b: seq<ToolCall>)
    ensures OnlyTools(tools, a + b) == OnlyTools(tools, a) + OnlyTools(tools, b)
  {
    if a == [] {
      assert a + b == b;
    } else {
      assert (a + b)[1..] == a[1..] + b;
      OnlyToolsConcat(tools, a[1..], b);
      Regroup(a[0], OnlyTools(tools, a[1..]), OnlyTools(tools, b));
    }
  }

  lemma {:induction false} Regroup(x: ToolCall, a: seq<ToolCall>, b: seq<ToolCall>)
    ensures [x] + (a + b) == [x] + a + b
  {
  }

  /** Call by call: one more call in a reply is one more call handled if its tool is offered,
      and otherwise none; so the calls handled are those of offered tools, in order. */
  lemma {:induction false} HandledCallByCall(tools: set<string>, calls: seq<ToolCall>, next: ToolCall)
    ensures OnlyTools(tools, []) == []
    ensures OnlyTools(tools, calls + [next]) ==
      if next.name in tools then OnlyTools(tools, calls) + [next] else OnlyTools(tools, calls)
  {
    OnlyToolsConcat(tools, calls, [next]);
    assert OnlyTools(tools, [next][1..]) == [];
    assert OnlyTools(tools, [next]) == if next.name in tools then [next] else [];
  }

  /** A reply's batch: its calls of offered tools, in order, with ids filled in. */
  lemma {:induction false} BatchOfReply(cfg: Config, w: World, n: nat)
    requires forall i: nat :: w.freshId(n, i) != ""
    ensures Batch(cfg, w, n) == OnlyTools(cfg.tools, FillIds(w, n, w.reply(n).calls))
    ensures forall c | c in Batch(cfg, w, n) :: c.name in cfg.tools && c.id != ""
  {
    var filled := FillIds(w, n, w.reply(n).calls);
    forall i | 0 <= i < |filled| ensures filled[i].id != "" { FilledAt(w, n, w.reply(n).calls, i); }
    OnlyToolsWithin(cfg.tools, filled);
  }

  lemma {:induction false} OnlyToolsWithin(tools: set<string>, calls: seq<ToolCall>)
    ensures forall c | c in OnlyTools(tools, calls) :: c in calls && c.name in tools
  {
    if calls != [] { OnlyToolsWithin(tools, calls[1..]); }
  }

  /** The results of an aligned batch: refused calls get their refusals and executed calls
      what they returned, each at its own place. */
  lemma {:induction false} ResultsOfBatch(w: World, n: nat, counts: map<string, nat>, batch: seq<ToolCall>)
    requires Aligned(batch, Flags(counts, batch))
    ensures var flags, results := Flags(counts, batch), Results(w, n, counts, batch);
      var refused, executed := Select(batch, flags, true), Select(batch, flags, false);
      && Select(results, flags, true) == seq(|refused|, i requires 0 <= i < |refused| => Refusal(refused[i]))
      && Select(results, flags, false) ==
           seq(|executed|, i requires 0 <= i < |executed| => Result(executed[i].id, w.output(n, i)))
  {
    var flags := Flags(counts, batch);
    var executed := Outputs(w, n, Select(batch, flags, false));
    AlignedInverts(batch, flags, executed);
    var refused := Select(batch, flags, true);
    assert ResultsOf(Refusals(refused)) == seq(|refused|, i requires 0 <= i < |refused| => Refusal(refused[i]));
  }

  // ---------------------------------------------------------------------- loop detection

  /** A call is refused exactly if it reads a file that was asked for at least twice before,
      in earlier iterations or earlier in the batch. */
  lemma {:induction false} RefusedIff(counts: map<string, nat>, calls: seq<ToolCall>, i: nat)
    requires i < |calls|
    ensures Flags(counts, calls)[i] <==>
      && calls[i].name == "read_file"
      && (if calls[i].path in counts then counts[calls[i].path] else 0) + ReadsOf(calls[..i], calls[i].path) >= 2
    decreases |calls|
  {
    if i > 0 {
      RefusedIff(Bump(counts, calls[0]), calls[1..], i - 1);
      assert calls[1..][..i - 1] == calls[1..i] && calls[..i][1..] == calls[1..i];
    }
  }

  /** The refusal answers the call and names its file. */
  lemma {:induction false} RefusalSays(tc: ToolCall)
    ensures Refusal(tc).id == tc.id
    ensures Refusal(tc).content ==
      "LOOP DETECTED: You have already read '" + tc.path + "' 2 times. "
      + "The content is already in your context. "
      + "STOP re-reading and PROCEED with implementation. "
      + "Use the information you already have."
  {
  }

  /** The calls executed are those not refused, in order, and the refused ones the others. */
  lemma {:induction false} SelectedCallByCall<T>(xs: seq<T>, flags: seq<bool>, x: T, flag: bool, want: bool)
    requires |xs| == |flags|
    ensures Select<T>([], [], want) == []
    ensures Select(xs + [x], flags + [flag], want) ==
      if flag == want then Select(xs, flags, want) + [x] else Select(xs, flags, want)
  {
    if xs == [] {
      assert xs + [x] == [x] && flags + [flag] == [flag];
      SelectCons(x, [], [flag], want);
      assert [x] + [] == [x] && [flag][1..] == [];
    } else {
      SelectCons(xs[0], xs[1..] + [x], flags + [flag], want);
      SelectCons(xs[0], xs[1..], flags, want);
      assert [xs[0]] + (xs[1..] + [x]) == xs + [x] && [xs[0]] + xs[1..] == xs;
      assert (flags + [flag])[1..] == flags[1..] + [flag];
      SelectedCallByCall(xs[1..], flags[1..], x, flag, want);
    }
  }

  // ------------------------------------------------------------------------ the messages

  /** What an iteration appends, message by message. */
  lemma {:induction false} ExchangeAt(cfg: Config, w: World, n: nat, batch: seq<ToolCall>, results: seq<Result>, i: nat)
    requires |batch| == |results| && i < |batch|
    ensures var ms := Exchange(cfg, w, n, batch, results);
      && |ms| == 1 + |batch| && ms[0] == Assistant(w.reply(n).content, batch)
      && ms[1 + i] == Tool(Result(results[i].id,
           if cfg.compression then w.compress(batch[i], results[i].content) else results[i].content))
  {
  }

  /** Pruning begins with the second iteration and the seventh message, and rewrites just
      the texts of tool messages. */
  lemma {:induction false} PrunedAt(cfg: Config, w: World, n: nat, messages: seq<Message>, i: nat)
    requires i < |messages|
    ensures |Pruned(cfg, w, n, messages)| == |messages|
    ensures Pruned(cfg, w, n, messages)[i] ==
      if cfg.pruning && n >= 2 && |messages| >= 7 && messages[i].Tool?
      then Tool(Result(messages[i].result.id, w.prune(n, i, messages[i].result.content)))
      else messages[i]
  {
  }

  // ------------------------------------------------------------------ the states of a run

  /** The loop before each of its iterations, and at its end. */
  function States(cfg: Config, w: World, st: Loop): (ss: seq<Loop>)
    ensures ss != [] && ss[0] == st
    decreases MAX_ITERATIONS - st.iteration
  {
    if st.finished || st.iteration >= MAX_ITERATIONS then [st] else [st] + States(cfg, w, Round(cfg, w, st))
  }

  lemma {:induction false} StatesEnd(cfg: Config, w: World, st: Loop)
    ensures var ss := States(cfg, w, st); var last := ss[|ss| - 1];
      last == RunLoop(cfg, w, st) && (last.finished || last.iteration >= 100)
    decreases MAX_ITERATIONS - st.iteration
  {
    if !st.finished && st.iteration < MAX_ITERATIONS {
      RunUnfolds(cfg, w, st);
      StatesEnd(cfg, w, Round(cfg, w, st));
    }
  }

  lemma {:induction false} StatesStep(cfg: Config, w: World, st: Loop, k: nat)
    requires k + 1 < |States(cfg, w, st)|
    ensures Follows(cfg, w, States(cfg, w, st), k)
    decreases k
  {
    if k == 0 {
      FirstFollows(cfg, w, st);
    } else {
      var next := StatesTail(cfg, w, st);
      StatesStep(cfg, w, next, k - 1);
      FollowsLater(cfg, w, st, States(cfg, w, next), k);
    }
  }

  lemma {:induction false} FirstFollows(cfg: Config, w: World, st: Loop)
    requires |States(cfg, w, st)| > 1
    ensures Follows(cfg, w, States(cfg, w, st), 0)
  {
  }

  /** State `k` is not final, and one iteration leads from it to the next. */
  ghost predicate Follows(cfg: Config, w: World, ss: seq<Loop>, k: nat)
    requires k + 1 < |ss|
  {
    !ss[k].finished && ss[k].iteration < 100 && ss[k + 1] == Round(cfg, w, ss[k])
  }

  lemma {:induction false} FollowsLater(cfg: Config, w: World, first: Loop, rest: seq<Loop>, k: nat)
    requires 0 < k < |rest| && Follows(cfg, w, rest, k - 1)
    ensures Follows(cfg, w, [first] + rest, k)
  {
  }

  lemma {:induction false} StatesTail(cfg: Config, w: World, st: Loop) returns (next: Loop)
    requires |States(cfg, w, st)| > 1
    ensures States(cfg, w, st) == [st] + States(cfg, w, next)
  {
    next := Round(cfg, w, st);
  }

  /** What each iteration does to the state, without saying how. */
  ghost predicate Advances(cfg: Config, w: World, st: Loop, next: Loop) {
    && next.iteration == st.iteration + 1
    && (next.finished <==> Batch(cfg, w, st.iteration + 1) == [])
  }

  ghost predicate Sends(cfg: Config, w: World, st: Loop, next: Loop) {
    var shown := Pruned(cfg, w, st.iteration + 1, st.messages);
    next.sent == st.sent + [
      if st.todos == [] then shown
      else shown + [User("[CURRENT TODO STATUS - Follow this plan]\n" + w.reminder(st.todos))]]
  }

  ghost predicate Says(w: World, st: Loop, next: Loop) {
    next.contents == if w.reply(st.iteration + 1).content == "" then st.contents
                     else st.contents + [w.reply(st.iteration + 1).content]
  }

  ghost predicate Tracks(cfg: Config, w: World, st: Loop, next: Loop) {
    var n := st.iteration + 1;
    var batch := Batch(cfg, w, n);
    next.todos == TodosAfter(w, st.todos, batch, Results(w, n, st.counts, batch))
  }

  lemma {:induction false} RoundAdvances(cfg: Config, w: World, st: Loop)
    requires !st.finished
    ensures Advances(cfg, w, st, Round(cfg, w, st))
  {
    RoundCounts(cfg, w, st);
    CalledKeeps(cfg, w, st);
  }

  lemma {:induction false} RoundSends(cfg: Config, w: World, st: Loop)
    ensures Sends(cfg, w, st, Round(cfg, w, st))
  {
    RoundMessages(cfg, w, st);
  }

  lemma {:induction false} RoundSays(cfg: Config, w: World, st: Loop)
    ensures Says(w, st, Round(cfg, w, st))
  {
    CalledSays(cfg, w, st);
    HandledSays(cfg, w, Called(cfg, w, st), Batch(cfg, w, st.iteration + 1));
  }

  lemma {:induction false} CalledSays(cfg: Config, w: World, st: Loop)
    ensures Says(w, st, Called(cfg, w, st))
  {
  }

  lemma {:induction false} HandledSays(cfg: Config, w: World, st: Loop, batch: seq<ToolCall>)
    ensures Handled(cfg, w, st, batch).contents == st.contents
  {
  }

  lemma {:induction false} RoundTracks(cfg: Config, w: World, st: Loop)
    ensures Tracks(cfg, w, st, Round(cfg, w, st))
  {
    CalledKeeps(cfg, w, st);
    HandledTracks(cfg, w, Called(cfg, w, st), Batch(cfg, w, st.iteration + 1));
  }

  lemma {:induction false} HandledTracks(cfg: Config, w: World, st: Loop, batch: seq<ToolCall>)
    ensures Handled(cfg, w, st, batch).todos ==
      TodosAfter(w, st.todos, batch, Results(w, st.iteration, st.counts, batch))
  {
  }

  // ------------------------------------------------------------------- when a run ends

  lemma {:induction false} CountsUp(cfg: Config, w: World, ss: seq<Loop>, k: nat)
    requires k < |ss| && forall j: nat | j + 1 < |ss| :: Advances(cfg, w, ss[j], ss[j + 1])
    ensures ss[k].iteration == ss[0].iteration + k
  {
    if k > 0 {
      CountsUp(cfg, w, ss, k - 1);
      assert Advances(cfg, w, ss[k - 1], ss[k]);
    }
  }

  lemma {:induction false} StatesAdvance(cfg: Config, w: World, st: Loop, k: nat)
    requires k + 1 < |States(cfg, w, st)|
    ensures Advances(cfg, w, States(cfg, w, st)[k], States(cfg, w, st)[k + 1]) && !States(cfg, w, st)[k].finished
  {
    StatesStep(cfg, w, st, k);
    RoundAdvances(cfg, w, States(cfg, w, st)[k]);
  }

  lemma {:induction false} EndsAtIdleReply(cfg: Config, w: World, ss: seq<Loop>)
    requires ss != [] && ss[0].iteration == 0 && !ss[0].finished
    requires forall j: nat | j + 1 < |ss| :: Advances(cfg, w, ss[j], ss[j + 1]) && !ss[j].finished
    requires var last := ss[|ss| - 1]; last.finished || last.iteration >= 100
    ensures var n := ss[|ss| - 1].iteration;
      && 1 <= n == |ss| - 1
      && (forall m | 1 <= m < n :: Batch(cfg, w, m) != [])
      && (n < 100 ==> Batch(cfg, w, n) == [])
  {
    CountsUp(cfg, w, ss, |ss| - 1);
    forall m: nat | 1 <= m < |ss| ensures ss[m].finished <==> Batch(cfg, w, m) == [] {
      CountsUp(cfg, w, ss, m - 1);
      assert Advances(cfg, w, ss[m - 1], ss[m]);
    }
  }

  /** The loop ends at the first reply that calls no offered tool, or after 100. */
  lemma {:induction false} RunEndsAtIdleReply(cfg: Config, w: World, initial: seq<Message>)
    ensures var n := RunLoop(cfg, w, Begin(initial)).iteration;
      && 1 <= n <= 100
      && (forall m | 1 <= m < n :: Batch(cfg, w, m) != [])
      && (n < 100 ==> Batch(cfg, w, n) == [])
  {
    var st := Begin(initial);
    var ss := States(cfg, w, st);
    StatesEnd(cfg, w, st);
    RunStops(cfg, w, st);
    forall j: nat | j + 1 < |ss| ensures Advances(cfg, w, ss[j], ss[j + 1]) && !ss[j].finished {
      StatesAdvance(cfg, w, st, j);
    }
    EndsAtIdleReply(cfg, w, ss);
  }

  // -------------------------------------------------------------------------- what is sent

  lemma {:induction false} SentOnce(cfg: Config, w: World, ss: seq<Loop>, j: nat, k: nat)
    requires ss != [] && ss[0].sent == [] && j < k < |ss|
    requires forall i: nat | i + 1 < |ss| :: Sends(cfg, w, ss[i], ss[i + 1])
    ensures |ss[k].sent| == k && |ss[j + 1].sent| == j + 1 && ss[k].sent[j] == ss[j + 1].sent[j]
    decreases k
  {
    SentSoMany(cfg, w, ss, j + 1);
    SentSoMany(cfg, w, ss, k);
    if j + 1 < k {
      SentOnce(cfg, w, ss, j, k - 1);
      assert Sends(cfg, w, ss[k - 1], ss[k]);
    }
  }

  lemma {:induction false} SentSoMany(cfg: Config, w: World, ss: seq<Loop>, k: nat)
    requires k < |ss| && ss[0].sent == []
    requires forall i: nat | i + 1 < |ss| :: Sends(cfg, w, ss[i], ss[i + 1])
    ensures |ss[k].sent| == k
  {
    if k > 0 {
      SentSoMany(cfg, w, ss, k - 1);
      assert Sends(cfg, w, ss[k - 1], ss[k]);
    }
  }

  lemma {:induction false} StatesSend(cfg: Config, w: World, st: Loop, k: nat)
    requires k + 1 < |States(cfg, w, st)|
    ensures Sends(cfg, w, States(cfg, w, st)[k], States(cfg, w, st)[k + 1])
  {
    StatesStep(cfg, w, st, k);
    RoundSends(cfg, w, States(cfg, w, st)[k]);
  }

  /** What a model call was sent, given the transcript and the todos before it. */
  ghost predicate SentWith(cfg: Config, w: World, n: nat, before: Loop, sent: seq<Message>) {
    var shown := Pruned(cfg, w, n, before.messages);
    sent == if before.todos == [] then shown
            else shown + [User("[CURRENT TODO STATUS - Follow this plan]\n" + w.reminder(before.todos))]
  }

  lemma {:induction false} ChainSends(cfg: Config, w: World, ss: seq<Loop>, j: nat)
    requires ss != [] && ss[0].sent == [] && ss[0].iteration == 0 && j + 1 < |ss|
    requires forall i: nat | i + 1 < |ss| :: Sends(cfg, w, ss[i], ss[i + 1]) && Advances(cfg, w, ss[i], ss[i + 1])
    ensures |ss[|ss| - 1].sent| == |ss| - 1 && SentWith(cfg, w, j + 1, ss[j], ss[|ss| - 1].sent[j])
  {
    SentOnce(cfg, w, ss, j, |ss| - 1);
    SentSoMany(cfg, w, ss, j);
    CountsUp(cfg, w, ss, j);
    SendsLast(cfg, w, ss[j], ss[j + 1], j);
  }

  lemma {:induction false} SendsLast(cfg: Config, w: World, st: Loop, next: Loop, j: nat)
    requires Sends(cfg, w, st, next) && |st.sent| == j == st.iteration
    ensures |next.sent| == j + 1 && SentWith(cfg, w, j + 1, st, next.sent[j])
  {
  }

  /** At each model call of a run, with index `j`, the messages sent are the pruned
      transcript, alone if no todos are in force, and else followed by one user message with
      the heading and the rendering of exactly those todos. */
  lemma {:induction false} SentAtEachCall(cfg: Config, w: World, st: Loop, ss: seq<Loop>, j: nat)
    requires st.sent == [] && st.iteration == 0 && ss == States(cfg, w, st) && j + 1 < |ss|
    ensures ss[|ss| - 1] == RunLoop(cfg, w, st) && |RunLoop(cfg, w, st).sent| == |ss| - 1
    ensures SentWith(cfg, w, j + 1, ss[j], RunLoop(cfg, w, st).sent[j])
  {
    StatesEnd(cfg, w, st);
    forall i: nat | i + 1 < |ss| ensures Sends(cfg, w, ss[i], ss[i + 1]) && Advances(cfg, w, ss[i], ss[i + 1]) {
      StatesSend(cfg, w, st, i);
      StatesAdvance(cfg, w, st, i);
    }
    ChainSends(cfg, w, ss, j);
  }

  // ---------------------------------------------------------------------- todos in force

  datatype Answered = Answered(call: ToolCall, result: Result)

  /** The calls handled in one iteration with their results. */
  function Pairs(batch: seq<ToolCall>, results: seq<Result>): (r: seq<Answered>)
    requires |batch| == |results|
    ensures |r| == |batch| && forall i | 0 <= i < |r| :: r[i] == Answered(batch[i], results[i])
  {
    seq(|batch|, i requires 0 <= i < |batch| => Answered(batch[i], results[i]))
  }

  /** The calls handled from a state on, with their results. */
  function Handling(cfg: Config, w: World, st: Loop): seq<Answered> {
    var batch := Batch(cfg, w, st.iteration + 1);
    Pairs(batch, Results(w, st.iteration + 1, st.counts, batch))
  }

  /** All calls handled before state `k`, with their results, in order. */
  function History(cfg: Config, w: World, ss: seq<Loop>, k: nat): seq<Answered>
    requires k <= |ss|
  {
    if k == 0 then [] else History(cfg, w, ss, k - 1) + Handling(cfg, w, ss[k - 1])
  }

  /** A successful todo update with a non-empty list. */
  predicate SetsTodos(w: World, a: Answered) {
    a.call.name == "update_todos" && w.todosIn(a.result.content) != []
  }

  /** The todos are those of the last update in the history, none if there is none. */
  ghost predicate LastSet(w: World, history: seq<Answered>, todos: seq<string>) {
    (exists k: nat :: LastSetAt(w, history, todos, k)) || (NeverSet(w, history) && todos == [])
  }

  ghost predicate LastSetAt(w: World, history: seq<Answered>, todos: seq<string>, k: nat) {
    && k < |history| && SetsTodos(w, history[k]) && todos == w.todosIn(history[k].result.content)
    && forall j | k < j < |history| :: !SetsTodos(w, history[j])
  }

  ghost predicate NeverSet(w: World, history: seq<Answered>) {
    forall j | 0 <= j < |history| :: !SetsTodos(w, history[j])
  }

  lemma {:induction false} NeverSetConcat(w: World, a: seq<Answered>, b: seq<Answered>)
    requires NeverSet(w, a) && NeverSet(w, b)
    ensures NeverSet(w, a + b)
  {
  }

  lemma {:induction false} LastSetKeeps(w: World, a: seq<Answered>, b: seq<Answered>, todos: seq<string>)
    requires LastSet(w, a, todos) && NeverSet(w, b)
    ensures LastSet(w, a + b, todos)
  {
    if k: nat :| LastSetAt(w, a, todos, k) {
      assert LastSetAt(w, a + b, todos, k);
    } else {
      NeverSetConcat(w, a, b);
    }
  }

  lemma {:induction false} LastSetMoves(w: World, a: seq<Answered>, b: seq<Answered>, todos: seq<string>, k: nat)
    requires LastSetAt(w, b, todos, k)
    ensures LastSet(w, a + b, todos)
  {
    assert (a + b)[|a| + k] == b[k];
    assert LastSetAt(w, a + b, todos, |a| + k);
  }

  /** One iteration's updates, in terms of its calls and results. */
  lemma {:induction false} TodosAfterBatch(
    w: World, history: seq<Answered>, todos: seq<string>, batch: seq<ToolCall>, results: seq<Result>)
    requires LastSet(w, history, todos) && |batch| == |results|
    ensures LastSet(w, history + Pairs(batch, results), TodosAfter(w, todos, batch, results))
  {
    var pairs := Pairs(batch, results);
    assert forall i | 0 <= i < |batch| :: SetsTodos(w, pairs[i]) <==> Updates(w, batch[i], results[i]);
    match LastUpdate(w, batch, results)
    case None => LastSetKeeps(w, history, pairs, todos);
    case Some(k) =>
      var now := w.todosIn(results[k].content);
      assert LastSetAt(w, pairs, now, k);
      LastSetMoves(w, history, pairs, now, k);
  }

  lemma {:induction false} StatesTrack(cfg: Config, w: World, st: Loop, k: nat)
    requires k + 1 < |States(cfg, w, st)|
    ensures Tracks(cfg, w, States(cfg, w, st)[k], States(cfg, w, st)[k + 1])
  {
    StatesStep(cfg, w, st, k);
    RoundTracks(cfg, w, States(cfg, w, st)[k]);
  }

  lemma {:induction false} HandlingSets(cfg: Config, w: World, st: Loop, next: Loop, history: seq<Answered>)
    requires Tracks(cfg, w, st, next) && LastSet(w, history, st.todos)
    ensures LastSet(w, history + Handling(cfg, w, st), next.todos)
  {
    var batch, results := HandlingOf(cfg, w, st, next);
    TodosAfterBatch(w, history, st.todos, batch, results);
  }

  lemma {:induction false} HandlingOf(cfg: Config, w: World, st: Loop, next: Loop)
    returns (batch: seq<ToolCall>, results: seq<Result>)
    requires Tracks(cfg, w, st, next)
    ensures |batch| == |results| && Handling(cfg, w, st) == Pairs(batch, results)
    ensures next.todos == TodosAfter(w, st.todos, batch, results)
  {
    batch := Batch(cfg, w, st.iteration + 1);
    results := Results(w, st.iteration + 1, st.counts, batch);
  }

  lemma {:induction false} ChainTracks(cfg: Config, w: World, ss: seq<Loop>, j: nat)
    requires j < |ss| && ss[0].todos == [] && forall k: nat | k + 1 < |ss| :: Tracks(cfg, w, ss[k], ss[k + 1])
    ensures LastSet(w, History(cfg, w, ss, j), ss[j].todos)
  {
    if j == 0 {
      assert NeverSet(w, History(cfg, w, ss, 0));
    } else {
      ChainTracks(cfg, w, ss, j - 1);
      assert Tracks(cfg, w, ss[j - 1], ss[j]);
      HandlingSets(cfg, w, ss[j - 1], ss[j], History(cfg, w, ss, j - 1));
    }
  }

  /** The todos in force at a model call are those of the last successful update in the run
      so far, and none before the first. */
  lemma {:induction false} TodosInForce(cfg: Config, w: World, st: Loop, ss: seq<Loop>, j: nat)
    requires st.todos == [] && ss == States(cfg, w, st) && j < |ss|
    ensures LastSet(w, History(cfg, w, ss, j), ss[j].todos)
  {
    forall k: nat | k + 1 < |ss| ensures Tracks(cfg, w, ss[k], ss[k + 1]) { StatesTrack(cfg, w, st, k); }
    ChainTracks(cfg, w, ss, j);
  }

  /** Both together, for the loop from any conversation. */
  lemma {:induction false} AgentSends(cfg: Config, w: World, initial: seq<Message>, ss: seq<Loop>, j: nat)
    requires ss == States(cfg, w, Begin(initial)) && j + 1 < |ss|
    ensures |RunLoop(cfg, w, Begin(initial)).sent| == |ss| - 1
    ensures SentWith(cfg, w, j + 1, ss[j], RunLoop(cfg, w, Begin(initial)).sent[j])
    ensures LastSet(w, History(cfg, w, ss, j), ss[j].todos)
  {
    SentAtEachCall(cfg, w, Begin(initial), ss, j);
    TodosInForce(cfg, w, Begin(initial), ss, j);
  }

  // ------------------------------------------------------------------ the text collected

  /** The contents of the first `n` replies that say something, in order. */
  function Said(w: World, n: nat): seq<string> {
    if n == 0 then []
    else if w.reply(n).content == "" then Said(w, n - 1)
    else Said(w, n - 1) + [w.reply(n).content]
  }

  lemma {:induction false} ChainSays(cfg: Config, w: World, ss: seq<Loop>, k: nat)
    requires k < |ss| && ss[0].iteration == 0 && ss[0].contents == []
    requires forall j: nat | j + 1 < |ss| :: Advances(cfg, w, ss[j], ss[j + 1]) && Says(w, ss[j], ss[j + 1])
    ensures ss[k].contents == Said(w, k)
  {
    if k > 0 {
      ChainSays(cfg, w, ss, k - 1);
      CountsUp(cfg, w, ss, k - 1);
      assert Says(w, ss[k - 1], ss[k]);
      SaidStep(w, k, ss[k - 1], ss[k]);
    }
  }

  lemma {:induction false} SaidStep(w: World, k: nat, st: Loop, next: Loop)
    requires k > 0 && st.iteration == k - 1 && st.contents == Said(w, k - 1) && Says(w, st, next)
    ensures next.contents == Said(w, k)
  {
  }

  lemma {:induction false} StatesSay(cfg: Config, w: World, st: Loop, k: nat)
    requires k + 1 < |States(cfg, w, st)|
    ensures Says(w, States(cfg, w, st)[k], States(cfg, w, st)[k + 1])
  {
    StatesStep(cfg, w, st, k);
    RoundSays(cfg, w, States(cfg, w, st)[k]);
  }

  /** Over a run the contents collected are the non-empty contents of the replies, in order. */
  lemma {:induction false} ContentsAreSaid(cfg: Config, w: World, st: Loop)
    requires st.iteration == 0 && st.contents == []
    ensures var end := RunLoop(cfg, w, st); end.contents == Said(w, end.iteration)
  {
    var ss := States(cfg, w, st);
    StatesEnd(cfg, w, st);
    forall j: nat | j + 1 < |ss| ensures Advances(cfg, w, ss[j], ss[j + 1]) && Says(w, ss[j], ss[j + 1]) {
      StatesAdvance(cfg, w, st, j);
      StatesSay(cfg, w, st, j);
    }
    ChainEndSays(cfg, w, ss);
  }

  lemma {:induction false} ChainEndSays(cfg: Config, w: World, ss: seq<Loop>)
    requires ss != [] && ss[0].iteration == 0 && ss[0].contents == []
    requires forall j: nat | j + 1 < |ss| :: Advances(cfg, w, ss[j], ss[j + 1]) && Says(w, ss[j], ss[j + 1])
    ensures var last := ss[|ss| - 1]; last.contents == Said(w, last.iteration)
  {
    ChainSays(cfg, w, ss, |ss| - 1);
    CountsUp(cfg, w, ss, |ss| - 1);
  }
}
