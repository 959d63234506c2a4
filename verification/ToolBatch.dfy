/**
  One batch of tool calls in the coding-agent loop: repeated file reads are refused, the rest
  is executed, and the two streams of results are merged back by a greedy walk that compares
  calls for equality.
*/
module ToolBatch {

  /** A tool call; `path` is the path argument, empty when missing or unreadable. */
  datatype ToolCall = ToolCall(id: string, name: string, path: string, arguments: string)

  datatype Result = Result(id: string, content: string)

  datatype Blocked = Blocked(call: ToolCall, result: Result)

  const MAX_READS_PER_FILE: nat := 2

  // --------------------------------------------------------------- loop detection

  function Count(counts: map<string, nat>, path: string): nat {
    if path in counts then counts[path] else 0
  }

  function Bump(counts: map<string, nat>, tc: ToolCall): map<string, nat> {
    if tc.name == "read_file" then counts[tc.path := Count(counts, tc.path) + 1] else counts
  }

  predicate IsRefused(counts: map<string, nat>, tc: ToolCall) {
    tc.name == "read_file" && Count(Bump(counts, tc), tc.path) > MAX_READS_PER_FILE
  }

  /** For each call of the batch, whether loop detection refuses it. */
  function Flags(counts: map<string, nat>, calls: seq<ToolCall>): (flags: seq<bool>)
    ensures |flags| == |calls|
    decreases |calls|
  {
    if calls == [] then []
    else [IsRefused(counts, calls[0])] + Flags(Bump(counts, calls[0]), calls[1..])
  }

  function BumpAll(counts: map<string, nat>, calls: seq<ToolCall>): map<string, nat>
    decreases |calls|
  {
    if calls == [] then counts else BumpAll(Bump(counts, calls[0]), calls[1..])
  }

  /** The elements whose flag is `want`, in order. */
  function Select<T>(xs: seq<T>, flags: seq<bool>, want: bool): (r: seq<T>)
    requires |xs| == |flags|
  {
    if xs == [] then []
    else (if flags[0] == want then [xs[0]] else []) + Select(xs[1..], flags[1..], want)
  }

  function Refusal(tc: ToolCall): (r: Result)
    ensures r.id == tc.id && r.content != ""
  {
    Result(tc.id,
      "LOOP DETECTED: You have already read '" + tc.path + "' 2 times. "
      + "The content is already in your context. "
      + "STOP re-reading and PROCEED with implementation. "
      + "Use the information you already have.")
  }

  function Refusals(calls: seq<ToolCall>): (r: seq<Blocked>)
    ensures |r| == |calls|
    ensures forall i | 0 <= i < |r| :: r[i] == Blocked(calls[i], Refusal(calls[i]))
  {
    seq(|calls|, i requires 0 <= i < |calls| => Blocked(calls[i], Refusal(calls[i])))
  }

  lemma {:induction false} SelectHead(counts: map<string, nat>, calls: seq<ToolCall>, done: seq<ToolCall>, want: bool)
    requires calls != []
    ensures var tc := calls[0];
      done + Select(calls, Flags(counts, calls), want)
      == (if IsRefused(counts, tc) == want then done + [tc] else done)
         + Select(calls[1..], Flags(Bump(counts, tc), calls[1..]), want)
  {
    var flags := Flags(counts, calls);
    assert flags[1..] == Flags(Bump(counts, calls[0]), calls[1..]);
  }

  method PartitionCalls(counts0: map<string, nat>, calls: seq<ToolCall>)
    returns (counts: map<string, nat>, toExecute: seq<ToolCall>, blocked: seq<Blocked>)
    ensures counts == BumpAll(counts0, calls)
    ensures toExecute == Select(calls, Flags(counts0, calls), false)
    ensures blocked == Refusals(Select(calls, Flags(counts0, calls), true))
  {
    counts, toExecute, blocked := counts0, [], [];
    ghost var refused: seq<ToolCall> := [];
    for k := 0 to |calls|
      invariant BumpAll(counts, calls[k..]) == BumpAll(counts0, calls)
      invariant toExecute + Select(calls[k..], Flags(counts, calls[k..]), false)
                == Select(calls, Flags(counts0, calls), false)
      invariant refused + Select(calls[k..], Flags(counts, calls[k..]), true)
                == Select(calls, Flags(counts0, calls), true)
      invariant blocked == Refusals(refused)
    {
      var tc := calls[k];
      SelectHead(counts, calls[k..], toExecute, false);
      SelectHead(counts, calls[k..], refused, true);
      assert calls[k..][1..] == calls[k + 1..];
      var block := false;
      if tc.name == "read_file" {
        counts := counts[tc.path := Count(counts, tc.path) + 1];
        block := counts[tc.path] > MAX_READS_PER_FILE;
      }
      if block {
        blocked := blocked + [Blocked(tc, Refusal(tc))];
        refused := refused + [tc];
      } else {
        toExecute := toExecute + [tc];
      }
    }
  }

  // ------------------------------------------------------------------- the merge

  /** The greedy walk stays in range and uses up both streams. */
  predicate Fits(calls: seq<ToolCall>, blocked: seq<Blocked>, executed: seq<Result>) {
    if calls == [] then blocked == [] && executed == []
    else if blocked != [] && blocked[0].call == calls[0] then Fits(calls[1..], blocked[1..], executed)
    else executed != [] && Fits(calls[1..], blocked, executed[1..])
  }

  function Merge(calls: seq<ToolCall>, blocked: seq<Blocked>, executed: seq<Result>): (r: seq<Result>)
    requires Fits(calls, blocked, executed)
    ensures |r| == |calls|
  {
    if calls == [] then []
    else if blocked != [] && blocked[0].call == calls[0] then
      [blocked[0].result] + Merge(calls[1..], blocked[1..], executed)
    else [executed[0]] + Merge(calls[1..], blocked, executed[1..])
  }

  lemma {:induction false} MergeHead(
    calls: seq<ToolCall>, blocked: seq<Blocked>, executed: seq<Result>, done: seq<Result>)
    requires calls != [] && Fits(calls, blocked, executed)
    ensures done + Merge(calls, blocked, executed) ==
      if blocked != [] && blocked[0].call == calls[0]
      then done + [blocked[0].result] + Merge(calls[1..], blocked[1..], executed)
      else done + [executed[0]] + Merge(calls[1..], blocked, executed[1..])
  {
  }

  method MergeResults(calls: seq<ToolCall>, blocked: seq<Blocked>, executed: seq<Result>)
    returns (results: seq<Result>)
    requires Fits(calls, blocked, executed)
    ensures results == Merge(calls, blocked, executed)
  {
    results := [];
    var executedIdx, blockedIdx := 0, 0;
    for k := 0 to |calls|
      invariant 0 <= blockedIdx <= |blocked| && 0 <= executedIdx <= |executed|
      invariant Fits(calls[k..], blocked[blockedIdx..], executed[executedIdx..])
      invariant results + Merge(calls[k..], blocked[blockedIdx..], executed[executedIdx..])
                == Merge(calls, blocked, executed)
    {
      MergeHead(calls[k..], blocked[blockedIdx..], executed[executedIdx..], results);
      assert calls[k..][1..] == calls[k + 1..];
      if blockedIdx < |blocked| && blocked[blockedIdx].call == calls[k] {
        assert blocked[blockedIdx..][1..] == blocked[blockedIdx + 1..];
        results := results + [blocked[blockedIdx].result];
        blockedIdx := blockedIdx + 1;
      } else {
        assert executed[executedIdx..][1..] == executed[executedIdx + 1..];
        results := results + [executed[executedIdx]];
        executedIdx := executedIdx + 1;
      }
    }
  }

  function CallsOf(blocked: seq<Blocked>): (r: seq<ToolCall>)
    ensures |r| == |blocked|
    ensures forall i | 0 <= i < |r| :: r[i] == blocked[i].call
  {
    seq(|blocked|, i requires 0 <= i < |blocked| => blocked[i].call)
  }

  /** `a` is found in `b` by always taking the first match. */
  predicate GreedyWithin(a: seq<ToolCall>, b: seq<ToolCall>) {
    if a == [] then true
    else if b == [] then false
    else if a[0] == b[0] then GreedyWithin(a[1..], b[1..])
    else GreedyWithin(a, b[1..])
  }

  lemma {:induction false} GreedyDropsHead(a: seq<ToolCall>, b: seq<ToolCall>)
    requires a != [] && GreedyWithin(a, b)
    ensures GreedyWithin(a[1..], b)
  {
    if a[0] == b[0] {
      if |a| > 1 && a[1] == b[0] { GreedyDropsHead(a[1..], b[1..]); }
    } else {
      GreedyDropsHead(a, b[1..]);
      if |a| > 1 && a[1] == b[0] { GreedyDropsHead(a[1..], b[1..]); }
    }
  }

  /** Taking the first match never costs the completion of a subsequence. */
  lemma {:induction false} SelectionIsGreedyWithin(calls: seq<ToolCall>, flags: seq<bool>)
    requires |calls| == |flags|
    ensures GreedyWithin(Select(calls, flags, true), calls)
  {
    if calls != [] {
      SelectionIsGreedyWithin(calls[1..], flags[1..]);
      var a := Select(calls, flags, true);
      if flags[0] {
        assert a[1..] == Select(calls[1..], flags[1..], true);
      } else {
        assert a == Select(calls[1..], flags[1..], true);
        if a != [] && a[0] == calls[0] { GreedyDropsHead(a, calls[1..]); }
      }
    }
  }

  lemma {:induction false} GreedyFits(calls: seq<ToolCall>, blocked: seq<Blocked>, executed: seq<Result>)
    requires GreedyWithin(CallsOf(blocked), calls)
    requires |blocked| + |executed| == |calls|
    ensures Fits(calls, blocked, executed)
  {
    if calls != [] {
      if blocked != [] && blocked[0].call == calls[0] {
        assert CallsOf(blocked)[1..] == CallsOf(blocked[1..]);
        GreedyFits(calls[1..], blocked[1..], executed);
      } else {
        GreedyIsNoLonger(CallsOf(blocked), calls[1..]);
        GreedyFits(calls[1..], blocked, executed[1..]);
      }
    }
  }

  lemma {:induction false} GreedyIsNoLonger(a: seq<ToolCall>, b: seq<ToolCall>)
    requires GreedyWithin(a, b)
    ensures |a| <= |b|
  {
    if a != [] {
      if a[0] == b[0] { GreedyIsNoLonger(a[1..], b[1..]); } else { GreedyIsNoLonger(a, b[1..]); }
    }
  }

  lemma {:induction false} SelectLengths<T>(xs: seq<T>, flags: seq<bool>)
    requires |xs| == |flags|
    ensures |Select(xs, flags, true)| + |Select(xs, flags, false)| == |xs|
  {
    if xs != [] { SelectLengths(xs[1..], flags[1..]); }
  }

  /** Whatever the batch, duplicates included, and however it was partitioned, the merge
      never runs out of range and uses every result of both streams exactly once. */
  lemma {:induction false} MergeAlwaysCompletes(calls: seq<ToolCall>, flags: seq<bool>, executed: seq<Result>)
    requires |calls| == |flags| && |executed| == |Select(calls, flags, false)|
    ensures var blocked := Refusals(Select(calls, flags, true));
      && Fits(calls, blocked, executed)
      && multiset(Merge(calls, blocked, executed)) == multiset(ResultsOf(blocked)) + multiset(executed)
  {
    var blocked := Refusals(Select(calls, flags, true));
    SelectionIsGreedyWithin(calls, flags);
    SelectLengths(calls, flags);
    assert CallsOf(blocked) == Select(calls, flags, true);
    GreedyFits(calls, blocked, executed);
    MergeKeepsResults(calls, blocked, executed);
  }

  function ResultsOf(blocked: seq<Blocked>): (r: seq<Result>)
    ensures |r| == |blocked|
    ensures forall i | 0 <= i < |r| :: r[i] == blocked[i].result
  {
    seq(|blocked|, i requires 0 <= i < |blocked| => blocked[i].result)
  }

  lemma {:induction false} MergeKeepsResults(calls: seq<ToolCall>, blocked: seq<Blocked>, executed: seq<Result>)
    requires Fits(calls, blocked, executed)
    ensures multiset(Merge(calls, blocked, executed)) == multiset(ResultsOf(blocked)) + multiset(executed)
  {
    if calls != [] {
      if blocked != [] && blocked[0].call == calls[0] {
        MergeKeepsResults(calls[1..], blocked[1..], executed);
        MultisetCons(blocked[0].result, Merge(calls[1..], blocked[1..], executed));
        ResultsSplit(blocked);
      } else {
        MergeKeepsResults(calls[1..], blocked, executed[1..]);
        MultisetCons(executed[0], Merge(calls[1..], blocked, executed[1..]));
        ExecutedSplit(executed);
      }
    }
  }

  lemma {:induction false} ResultsSplit(blocked: seq<Blocked>)
    requires blocked != []
    ensures multiset(ResultsOf(blocked)) == multiset{blocked[0].result} + multiset(ResultsOf(blocked[1..]))
  {
    assert ResultsOf(blocked) == [blocked[0].result] + ResultsOf(blocked[1..]);
  }

  lemma {:induction false} ExecutedSplit(executed: seq<Result>)
    requires executed != []
    ensures multiset(executed) == multiset{executed[0]} + multiset(executed[1..])
  {
    assert executed == [executed[0]] + executed[1..];
  }

  lemma {:induction false} MultisetCons(x: Result, xs: seq<Result>)
    ensures multiset([x] + xs) == multiset{x} + multiset(xs)
  {
  }

  // --------------------------------------------------------- merge against partition

  /** No executed call equals the refused call that comes next after it. */
  predicate Aligned(calls: seq<ToolCall>, flags: seq<bool>)
    requires |calls| == |flags|
  {
    calls == [] ||
    ( && Aligned(calls[1..], flags[1..])
      && (!flags[0] ==>
            var refused := Select(calls[1..], flags[1..], true);
            refused == [] || refused[0] != calls[0]))
  }

  /** Merging undoes the partition: the results at the refused positions are the refusals,
      those at the executed positions are the executed results, both in order. */
  ghost predicate Inverts(calls: seq<ToolCall>, flags: seq<bool>, executed: seq<Result>)
    requires |calls| == |flags|
  {
    var blocked := Refusals(Select(calls, flags, true));
    && Fits(calls, blocked, executed)
    && Select(Merge(calls, blocked, executed), flags, true) == ResultsOf(blocked)
    && Select(Merge(calls, blocked, executed), flags, false) == executed
  }

  /** A refused call at the head is matched with its own refusal. */
  lemma {:induction false} MergeRefusedHead(calls: seq<ToolCall>, flags: seq<bool>, executed: seq<Result>)
    requires |calls| == |flags| && calls != [] && flags[0]
    requires Fits(calls[1..], Refusals(Select(calls[1..], flags[1..], true)), executed)
    ensures var blocked, rest := Refusals(Select(calls, flags, true)), Refusals(Select(calls[1..], flags[1..], true));
      && blocked == [Blocked(calls[0], Refusal(calls[0]))] + rest
      && Fits(calls, blocked, executed)
      && Merge(calls, blocked, executed) == [Refusal(calls[0])] + Merge(calls[1..], rest, executed)
  {
    var rest := Refusals(Select(calls[1..], flags[1..], true));
    var blocked := Refusals(Select(calls, flags, true));
    assert blocked == [Blocked(calls[0], Refusal(calls[0]))] + rest;
    assert blocked[1..] == rest;
  }

  /** An executed call at the head of an aligned batch is matched with the first result. */
  lemma {:induction false} MergeExecutedHead(calls: seq<ToolCall>, flags: seq<bool>, executed: seq<Result>)
    requires |calls| == |flags| && calls != [] && !flags[0] && Aligned(calls, flags) && executed != []
    requires Fits(calls[1..], Refusals(Select(calls[1..], flags[1..], true)), executed[1..])
    ensures var blocked := Refusals(Select(calls[1..], flags[1..], true));
      && Refusals(Select(calls, flags, true)) == blocked
      && Fits(calls, blocked, executed)
      && Merge(calls, blocked, executed) == [executed[0]] + Merge(calls[1..], blocked, executed[1..])
  {
    assert Select(calls, flags, true) == Select(calls[1..], flags[1..], true);
  }

  lemma {:induction false} SelectCons<T>(x: T, xs: seq<T>, flags: seq<bool>, want: bool)
    requires |flags| == 1 + |xs|
    ensures Select([x] + xs, flags, want) ==
      if flags[0] == want then [x] + Select(xs, flags[1..], want) else Select(xs, flags[1..], want)
  {
    assert ([x] + xs)[1..] == xs;
  }

  lemma {:induction false} InvertsRefused(calls: seq<ToolCall>, flags: seq<bool>, executed: seq<Result>)
    requires |calls| == |flags| && calls != [] && flags[0] && Inverts(calls[1..], flags[1..], executed)
    ensures Inverts(calls, flags, executed)
  {
    MergeRefusedHead(calls, flags, executed);
    var rest := Refusals(Select(calls[1..], flags[1..], true));
    var r := Merge(calls[1..], rest, executed);
    SelectCons(Refusal(calls[0]), r, flags, true);
    SelectCons(Refusal(calls[0]), r, flags, false);
    ResultsOfCons(Blocked(calls[0], Refusal(calls[0])), rest);
  }

  lemma {:induction false} ResultsOfCons(b: Blocked, rest: seq<Blocked>)
    ensures ResultsOf([b] + rest) == [b.result] + ResultsOf(rest)
  {
  }

  lemma {:induction false} InvertsExecuted(calls: seq<ToolCall>, flags: seq<bool>, executed: seq<Result>)
    requires |calls| == |flags| && calls != [] && !flags[0] && Aligned(calls, flags) && executed != []
    requires Inverts(calls[1..], flags[1..], executed[1..])
    ensures Inverts(calls, flags, executed)
  {
    MergeExecutedHead(calls, flags, executed);
    var r := Merge(calls[1..], Refusals(Select(calls[1..], flags[1..], true)), executed[1..]);
    SelectCons(executed[0], r, flags, true);
    SelectCons(executed[0], r, flags, false);
    assert executed == [executed[0]] + executed[1..];
  }

  lemma {:induction false} AlignedInverts(calls: seq<ToolCall>, flags: seq<bool>, executed: seq<Result>)
    requires |calls| == |flags| && |executed| == |Select(calls, flags, false)| && Aligned(calls, flags)
    ensures Inverts(calls, flags, executed)
  {
    if calls != [] {
      if flags[0] {
        AlignedInverts(calls[1..], flags[1..], executed);
        InvertsRefused(calls, flags, executed);
      } else {
        AlignedInverts(calls[1..], flags[1..], executed[1..]);
        InvertsExecuted(calls, flags, executed);
      }
    }
  }

  /** Without alignment some executed call is handed a refusal. */
  lemma {:induction false} MisalignedLeaks(calls: seq<ToolCall>, flags: seq<bool>, executed: seq<Result>)
    requires |calls| == |flags| && !Aligned(calls, flags)
    requires Fits(calls, Refusals(Select(calls, flags, true)), executed)
    requires forall i | 0 <= i < |executed| :: executed[i].content == ""
    ensures var merged := Merge(calls, Refusals(Select(calls, flags, true)), executed);
      exists r :: r in Select(merged, flags, false) && r.content != ""
  {
    var refused := Select(calls, flags, true);
    var blocked := Refusals(refused);
    var r := Merge(calls, blocked, executed);
    if flags[0] {
      assert blocked[1..] == Refusals(Select(calls[1..], flags[1..], true));
      MisalignedLeaks(calls[1..], flags[1..], executed);
      SelectCons(blocked[0].result, Merge(calls[1..], blocked[1..], executed), flags, false);
    } else if refused != [] && refused[0] == calls[0] {
      assert r[0] == Refusal(calls[0]);
      assert r[0] in Select(r, flags, false);
    } else {
      assert refused == Select(calls[1..], flags[1..], true);
      MisalignedLeaks(calls[1..], flags[1..], executed[1..]);
      SelectCons(executed[0], Merge(calls[1..], blocked, executed[1..]), flags, false);
    }
  }

  /** The merge inverts the partition, whatever the executed calls return, exactly when no
      executed call equals the refused call that comes next after it. */
  lemma {:induction false} InvertsIffAligned(calls: seq<ToolCall>, flags: seq<bool>)
    requires |calls| == |flags|
    ensures Aligned(calls, flags) <==>
            forall executed: seq<Result> | |executed| == |Select(calls, flags, false)| ::
              Inverts(calls, flags, executed)
  {
    if Aligned(calls, flags) {
      forall executed: seq<Result> | |executed| == |Select(calls, flags, false)|
        ensures Inverts(calls, flags, executed)
      {
        AlignedInverts(calls, flags, executed);
      }
    } else {
      var silent := seq(|Select(calls, flags, false)|, _ => Result("", ""));
      MergeAlwaysCompletes(calls, flags, silent);
      MisalignedLeaks(calls, flags, silent);
      assert !Inverts(calls, flags, silent);
    }
  }

  ghost predicate Distinct(calls: seq<ToolCall>) {
    forall i, j | 0 <= i < j < |calls| :: calls[i] != calls[j]
  }

  lemma {:induction false} SelectWithin<T>(xs: seq<T>, flags: seq<bool>, want: bool)
    requires |xs| == |flags|
    ensures forall x | x in Select(xs, flags, want) :: x in xs
  {
    if xs != [] { SelectWithin(xs[1..], flags[1..], want); }
  }

  lemma {:induction false} DistinctIsAligned(calls: seq<ToolCall>, flags: seq<bool>)
    requires |calls| == |flags| && Distinct(calls)
    ensures Aligned(calls, flags)
  {
    if calls != [] {
      DistinctIsAligned(calls[1..], flags[1..]);
      SelectWithin(calls[1..], flags[1..], true);
      var refused := Select(calls[1..], flags[1..], true);
      assert refused != [] ==> refused[0] in calls[1..];
    }
  }

  /** The executed results carry the ids of the calls they answer. */
  ghost predicate Carries(executed: seq<Result>, calls: seq<ToolCall>) {
    |executed| == |calls| && forall i | 0 <= i < |executed| :: executed[i].id == calls[i].id
  }

  /** Result i answers call i, for aligned batches whose executed results carry their ids. */
  lemma {:induction false} AlignedIdsMatch(calls: seq<ToolCall>, flags: seq<bool>, executed: seq<Result>)
    requires |calls| == |flags| && Aligned(calls, flags)
    requires Carries(executed, Select(calls, flags, false))
    ensures Fits(calls, Refusals(Select(calls, flags, true)), executed)
    ensures Carries(Merge(calls, Refusals(Select(calls, flags, true)), executed), calls)
  {
    if calls != [] {
      var rest := Refusals(Select(calls[1..], flags[1..], true));
      if flags[0] {
        AlignedIdsMatch(calls[1..], flags[1..], executed);
        MergeRefusedHead(calls, flags, executed);
        CarriesCons(Refusal(calls[0]), Merge(calls[1..], rest, executed), calls);
      } else {
        assert Select(calls, flags, false)[1..] == Select(calls[1..], flags[1..], false);
        AlignedIdsMatch(calls[1..], flags[1..], executed[1..]);
        MergeExecutedHead(calls, flags, executed);
        CarriesCons(executed[0], Merge(calls[1..], rest, executed[1..]), calls);
      }
    }
  }

  lemma {:induction false} CarriesCons(head: Result, tail: seq<Result>, calls: seq<ToolCall>)
    requires calls != [] && head.id == calls[0].id && Carries(tail, calls[1..])
    ensures Carries([head] + tail, calls)
  {
    forall i | 0 <= i < |calls| ensures ([head] + tail)[i].id == calls[i].id {
      if i > 0 { assert tail[i - 1].id == calls[1..][i - 1].id; }
    }
  }

  /** Walking the batch, every call that is not the next refused call has the id of the next
      executed call. */
  predicate InStep(calls: seq<ToolCall>, refused: seq<ToolCall>, executed: seq<ToolCall>) {
    calls == [] ||
    (if refused != [] && refused[0] == calls[0] then InStep(calls[1..], refused[1..], executed)
     else executed != [] && executed[0].id == calls[0].id && InStep(calls[1..], refused, executed[1..]))
  }

  /** The batch is in step under the flags that loop detection gives it. */
  predicate Labels(counts: map<string, nat>, batch: seq<ToolCall>) {
    var flags := Flags(counts, batch);
    InStep(batch, Select(batch, flags, true), Select(batch, flags, false))
  }

  lemma {:induction false} RefusalsTail(refused: seq<ToolCall>)
    requires refused != []
    ensures Refusals(refused)[1..] == Refusals(refused[1..])
  {
  }

  lemma {:induction false} CarriesHead(head: Result, tail: seq<Result>, calls: seq<ToolCall>)
    requires calls != []
    ensures Carries([head] + tail, calls) <==> head.id == calls[0].id && Carries(tail, calls[1..])
  {
    if Carries([head] + tail, calls) {
      assert ([head] + tail)[0].id == calls[0].id;
      forall i | 0 <= i < |tail| ensures tail[i].id == calls[1..][i].id {
        assert ([head] + tail)[i + 1].id == calls[i + 1].id;
      }
    }
    if head.id == calls[0].id && Carries(tail, calls[1..]) { CarriesCons(head, tail, calls); }
  }

  /** Result i answers call i, whatever the executed calls return under their ids, exactly
      for the batches that are in step. */
  lemma {:induction false} IdsMatchIffInStep(
    calls: seq<ToolCall>, refused: seq<ToolCall>, toExecute: seq<ToolCall>, executed: seq<Result>)
    requires Fits(calls, Refusals(refused), executed) && Carries(executed, toExecute)
    ensures Carries(Merge(calls, Refusals(refused), executed), calls) <==> InStep(calls, refused, toExecute)
  {
    if calls != [] {
      if refused != [] && refused[0] == calls[0] {
        RefusalsTail(refused);
        IdsMatchIffInStep(calls[1..], refused[1..], toExecute, executed);
        CarriesHead(Refusal(refused[0]), Merge(calls[1..], Refusals(refused[1..]), executed), calls);
      } else {
        IdsMatchIffInStep(calls[1..], refused, toExecute[1..], executed[1..]);
        CarriesHead(executed[0], Merge(calls[1..], Refusals(refused), executed[1..]), calls);
      }
    }
  }

  /** Aligned batches are in step. */
  lemma {:induction false} AlignedIsInStep(calls: seq<ToolCall>, flags: seq<bool>)
    requires |calls| == |flags| && Aligned(calls, flags)
    ensures InStep(calls, Select(calls, flags, true), Select(calls, flags, false))
  {
    var toExecute := Select(calls, flags, false);
    var executed := seq(|toExecute|, i requires 0 <= i < |toExecute| => Result(toExecute[i].id, ""));
    AlignedIdsMatch(calls, flags, executed);
    IdsMatchIffInStep(calls, Select(calls, flags, true), toExecute, executed);
  }

  // ---------------------------------------------------- which batches are out of step

  /** Between a call and a later refused copy of it only calls with its id stand. */
  ghost predicate Clustered(calls: seq<ToolCall>, flags: seq<bool>)
    requires |calls| == |flags|
  {
    forall i, k, j | 0 <= i < k < j < |calls| && flags[j] && calls[i] == calls[j] :: calls[k].id == calls[j].id
  }

  /** The first calls of the batch, up to its `n`-th refused one, all have the id. */
  predicate SameIdFor(calls: seq<ToolCall>, flags: seq<bool>, n: nat, id: string)
    requires |calls| == |flags|
  {
    n == 0 ||
    (calls != [] && calls[0].id == id && SameIdFor(calls[1..], flags[1..], if flags[0] then n - 1 else n, id))
  }

  /** Every call before a refused copy of `head` has its id. */
  ghost predicate Near(head: ToolCall, calls: seq<ToolCall>, flags: seq<bool>)
    requires |calls| == |flags|
  {
    forall k, j | 0 <= k < j < |calls| && flags[j] && calls[j] == head :: calls[k].id == head.id
  }

  lemma {:induction false} NearRest(head: ToolCall, calls: seq<ToolCall>, flags: seq<bool>)
    requires |calls| == |flags| && calls != [] && Near(head, calls, flags)
    ensures Near(head, calls[1..], flags[1..])
  {
    forall k, j | 0 <= k < j < |calls[1..]| && flags[1..][j] && calls[1..][j] == head
      ensures calls[1..][k].id == head.id
    {
      assert flags[j + 1] && calls[j + 1] == head && calls[k + 1].id == head.id;
    }
  }

  lemma {:induction false} ClusteredRest(calls: seq<ToolCall>, flags: seq<bool>)
    requires |calls| == |flags| && calls != [] && Clustered(calls, flags)
    ensures Clustered(calls[1..], flags[1..]) && Near(calls[0], calls[1..], flags[1..])
  {
    forall i, k, j | 0 <= i < k < j < |calls[1..]| && flags[1..][j] && calls[1..][i] == calls[1..][j]
      ensures calls[1..][k].id == calls[1..][j].id
    {
      assert flags[j + 1] && calls[i + 1] == calls[j + 1] && calls[k + 1].id == calls[j + 1].id;
    }
    forall k, j | 0 <= k < j < |calls[1..]| && flags[1..][j] && calls[1..][j] == calls[0]
      ensures calls[1..][k].id == calls[0].id
    {
      assert flags[j + 1] && calls[0] == calls[j + 1] && calls[k + 1].id == calls[j + 1].id;
    }
  }

  lemma {:induction false} SelectedIsFlagged(calls: seq<ToolCall>, flags: seq<bool>, m: nat) returns (j: nat)
    requires |calls| == |flags| && m < |Select(calls, flags, true)|
    ensures j < |calls| && flags[j] && calls[j] == Select(calls, flags, true)[m]
  {
    if flags[0] && m == 0 {
      j := 0;
    } else {
      var rest := Select(calls[1..], flags[1..], true);
      assert Select(calls, flags, true) == if flags[0] then [calls[0]] + rest else rest;
      var r := SelectedIsFlagged(calls[1..], flags[1..], if flags[0] then m - 1 else m);
      j := r + 1;
    }
  }

  /** A refused copy of `head` reaches back to it through calls with one id. */
  lemma {:induction false} NearReaches(head: ToolCall, calls: seq<ToolCall>, flags: seq<bool>, m: nat)
    requires |calls| == |flags| && Near(head, calls, flags)
    requires m < |Select(calls, flags, true)| && Select(calls, flags, true)[m] == head
    ensures SameIdFor(calls, flags, m + 1, head.id)
  {
    var j := SelectedIsFlagged(calls, flags, m);
    assert calls[0].id == head.id;
    if !(flags[0] && m == 0) {
      var rest := Select(calls[1..], flags[1..], true);
      assert Select(calls, flags, true) == if flags[0] then [calls[0]] + rest else rest;
      NearRest(head, calls, flags);
      NearReaches(head, calls[1..], flags[1..], if flags[0] then m - 1 else m);
    }
  }

  ghost predicate AllHaveId(calls: seq<ToolCall>, id: string) {
    forall c | c in calls :: c.id == id
  }

  /** The walk over a clustered batch when `ahead` refusals were handed out early: as many
      executed calls are still `pending`, all with the id of the calls up to the last of
      those refusals. */
  lemma {:induction false} ClusteredWalk(
    calls: seq<ToolCall>, flags: seq<bool>, ahead: nat, pending: seq<ToolCall>, id: string)
    requires |calls| == |flags| && Clustered(calls, flags)
    requires |pending| == ahead <= |Select(calls, flags, true)|
    requires AllHaveId(pending, id) && SameIdFor(calls, flags, ahead, id)
    ensures InStep(calls, Select(calls, flags, true)[ahead..], pending + Select(calls, flags, false))
    decreases |calls|, 2
  {
    if calls != [] {
      var refused := Select(calls, flags, true)[ahead..];
      if refused != [] && refused[0] == calls[0] {
        WalkHanded(calls, flags, ahead, pending, id);
      } else {
        WalkExecuted(calls, flags, ahead, pending, id);
      }
    }
  }

  lemma {:induction false} WalkSelects(calls: seq<ToolCall>, flags: seq<bool>)
    requires |calls| == |flags| && calls != []
    ensures var r, e := Select(calls[1..], flags[1..], true), Select(calls[1..], flags[1..], false);
      && Select(calls, flags, true) == (if flags[0] then [calls[0]] + r else r)
      && Select(calls, flags, false) == (if flags[0] then e else [calls[0]] + e)
  {
  }

  /** The head is handed the next refusal. */
  lemma {:induction false} WalkHanded(
    calls: seq<ToolCall>, flags: seq<bool>, ahead: nat, pending: seq<ToolCall>, id: string)
    requires |calls| == |flags| && calls != [] && Clustered(calls, flags)
    requires |pending| == ahead < |Select(calls, flags, true)| && Select(calls, flags, true)[ahead] == calls[0]
    requires AllHaveId(pending, id) && SameIdFor(calls, flags, ahead, id)
    ensures InStep(calls, Select(calls, flags, true)[ahead..], pending + Select(calls, flags, false))
    decreases |calls|, 1
  {
    if flags[0] {
      WalkHandedRefused(calls, flags, ahead, pending, id);
    } else {
      WalkHandedExecuted(calls, flags, ahead, pending, id);
    }
  }

  lemma {:induction false} WalkHandedRefused(
    calls: seq<ToolCall>, flags: seq<bool>, ahead: nat, pending: seq<ToolCall>, id: string)
    requires |calls| == |flags| && calls != [] && Clustered(calls, flags) && flags[0]
    requires |pending| == ahead < |Select(calls, flags, true)| && Select(calls, flags, true)[ahead] == calls[0]
    requires AllHaveId(pending, id) && SameIdFor(calls, flags, ahead, id)
    ensures InStep(calls, Select(calls, flags, true)[ahead..], pending + Select(calls, flags, false))
    decreases |calls|, 0
  {
    ClusteredRest(calls, flags);
    WalkSelects(calls, flags);
    if ahead > 0 { NearReaches(calls[0], calls[1..], flags[1..], ahead - 1); }
    DropCons(calls[0], Select(calls[1..], flags[1..], true), ahead);
    ClusteredWalk(calls[1..], flags[1..], ahead, pending, id);
    HandedInStep(calls, Select(calls, flags, true), ahead, pending + Select(calls, flags, false));
  }

  lemma {:induction false} WalkHandedExecuted(
    calls: seq<ToolCall>, flags: seq<bool>, ahead: nat, pending: seq<ToolCall>, id: string)
    requires |calls| == |flags| && calls != [] && Clustered(calls, flags) && !flags[0]
    requires |pending| == ahead < |Select(calls, flags, true)| && Select(calls, flags, true)[ahead] == calls[0]
    requires AllHaveId(pending, id) && SameIdFor(calls, flags, ahead, id)
    ensures InStep(calls, Select(calls, flags, true)[ahead..], pending + Select(calls, flags, false))
    decreases |calls|, 0
  {
    ClusteredRest(calls, flags);
    WalkSelects(calls, flags);
    var r, e := Select(calls[1..], flags[1..], true), Select(calls[1..], flags[1..], false);
    var queue := pending + [calls[0]];
    NearReaches(calls[0], calls[1..], flags[1..], ahead);
    QueueGrows(pending, calls[0], e, id);
    ClusteredWalk(calls[1..], flags[1..], ahead + 1, queue, calls[0].id);
    HandedInStep(calls, r, ahead, queue + e);
  }

  lemma {:induction false} QueueGrows(pending: seq<ToolCall>, head: ToolCall, rest: seq<ToolCall>, id: string)
    requires AllHaveId(pending, id) && (pending != [] ==> id == head.id)
    ensures pending + ([head] + rest) == (pending + [head]) + rest && AllHaveId(pending + [head], head.id)
  {
  }

  lemma {:induction false} HandedInStep(
    calls: seq<ToolCall>, refused: seq<ToolCall>, ahead: nat, executed: seq<ToolCall>)
    requires calls != [] && ahead < |refused| && refused[ahead] == calls[0]
    requires InStep(calls[1..], refused[ahead + 1..], executed)
    ensures InStep(calls, refused[ahead..], executed)
  {
    assert refused[ahead..][1..] == refused[ahead + 1..];
  }

  /** The head is handed the oldest pending result, its own if none is pending. */
  lemma {:induction false} WalkExecuted(
    calls: seq<ToolCall>, flags: seq<bool>, ahead: nat, pending: seq<ToolCall>, id: string)
    requires |calls| == |flags| && calls != [] && Clustered(calls, flags)
    requires |pending| == ahead <= |Select(calls, flags, true)|
    requires ahead == |Select(calls, flags, true)| || Select(calls, flags, true)[ahead] != calls[0]
    requires AllHaveId(pending, id) && SameIdFor(calls, flags, ahead, id)
    ensures InStep(calls, Select(calls, flags, true)[ahead..], pending + Select(calls, flags, false))
    decreases |calls|, 1
  {
    if flags[0] {
      WalkSelects(calls, flags);
      WalkExecutedRefused(calls, flags, ahead, pending, id);
    } else {
      WalkExecutedOwn(calls, flags, ahead, pending, id);
    }
  }

  lemma {:induction false} WalkExecutedRefused(
    calls: seq<ToolCall>, flags: seq<bool>, ahead: nat, pending: seq<ToolCall>, id: string)
    requires |calls| == |flags| && calls != [] && Clustered(calls, flags) && flags[0]
    requires |pending| == ahead <= |Select(calls, flags, true)|
    requires 0 < ahead && (ahead == |Select(calls, flags, true)| || Select(calls, flags, true)[ahead] != calls[0])
    requires AllHaveId(pending, id) && SameIdFor(calls, flags, ahead, id)
    ensures InStep(calls, Select(calls, flags, true)[ahead..], pending + Select(calls, flags, false))
    decreases |calls|, 0
  {
    ClusteredRest(calls, flags);
    WalkSelects(calls, flags);
    var r, e := Select(calls[1..], flags[1..], true), Select(calls[1..], flags[1..], false);
    assert pending[0] in pending;
    ClusteredWalk(calls[1..], flags[1..], ahead - 1, pending[1..], id);
    TakenPending(calls, r, e, ahead, pending);
  }

  lemma {:induction false} TakenPending(
    calls: seq<ToolCall>, refused: seq<ToolCall>, executed: seq<ToolCall>, ahead: nat, pending: seq<ToolCall>)
    requires calls != [] && 0 < ahead == |pending| <= |refused| + 1 && pending[0].id == calls[0].id
    requires ahead == |refused| + 1 || refused[ahead - 1] != calls[0]
    requires InStep(calls[1..], refused[ahead - 1..], pending[1..] + executed)
    ensures InStep(calls, ([calls[0]] + refused)[ahead..], pending + executed)
  {
    DropCons(calls[0], refused, ahead - 1);
    TakeFront(pending, executed);
    TakenInStep(calls, [calls[0]] + refused, ahead, pending + executed);
  }

  lemma {:induction false} WalkExecutedOwn(
    calls: seq<ToolCall>, flags: seq<bool>, ahead: nat, pending: seq<ToolCall>, id: string)
    requires |calls| == |flags| && calls != [] && Clustered(calls, flags) && !flags[0]
    requires |pending| == ahead <= |Select(calls, flags, true)|
    requires ahead == |Select(calls, flags, true)| || Select(calls, flags, true)[ahead] != calls[0]
    requires AllHaveId(pending, id) && SameIdFor(calls, flags, ahead, id)
    ensures InStep(calls, Select(calls, flags, true)[ahead..], pending + Select(calls, flags, false))
    decreases |calls|, 0
  {
    ClusteredRest(calls, flags);
    WalkSelects(calls, flags);
    var e, queue := Select(calls[1..], flags[1..], false), pending + [calls[0]];
    assert ahead > 0 ==> id == calls[0].id;
    QueueGrows(pending, calls[0], e, id);
    TakeFront(queue, e);
    assert queue[0] in queue;
    ClusteredWalk(calls[1..], flags[1..], ahead, queue[1..], calls[0].id);
    TakenInStep(calls, Select(calls, flags, true), ahead, queue + e);
  }

  lemma {:induction false} DropCons(x: ToolCall, xs: seq<ToolCall>, n: nat)
    requires n <= |xs|
    ensures ([x] + xs)[n + 1..] == xs[n..]
  {
  }

  lemma {:induction false} TakeFront(queue: seq<ToolCall>, rest: seq<ToolCall>)
    requires queue != []
    ensures (queue + rest)[0] == queue[0] && (queue + rest)[1..] == queue[1..] + rest
    ensures forall c | c in queue[1..] :: c in queue
  {
  }

  lemma {:induction false} TakenInStep(
    calls: seq<ToolCall>, refused: seq<ToolCall>, ahead: nat, executed: seq<ToolCall>)
    requires calls != [] && ahead <= |refused| && (ahead == |refused| || refused[ahead] != calls[0])
    requires executed != [] && executed[0].id == calls[0].id && InStep(calls[1..], refused[ahead..], executed[1..])
    ensures InStep(calls, refused[ahead..], executed)
  {
  }

  /** Ids go astray only around a repetition: if a batch is out of step, some call has a
      later refused copy and, between the two, a call with another id. */
  lemma {:induction false} OutOfStepMeansInterleavedRepeat(calls: seq<ToolCall>, flags: seq<bool>)
    requires |calls| == |flags| && !InStep(calls, Select(calls, flags, true), Select(calls, flags, false))
    ensures exists i, k, j | 0 <= i < k < j < |calls| :: flags[j] && calls[i] == calls[j] && calls[k].id != calls[j].id
  {
    if Clustered(calls, flags) { ClusteredIsInStep(calls, flags); }
  }

  lemma {:induction false} ClusteredIsInStep(calls: seq<ToolCall>, flags: seq<bool>)
    requires |calls| == |flags| && Clustered(calls, flags)
    ensures InStep(calls, Select(calls, flags, true), Select(calls, flags, false))
  {
    ClusteredWalk(calls, flags, 0, [], "");
    assert Select(calls, flags, true)[0..] == Select(calls, flags, true);
    assert [] + Select(calls, flags, false) == Select(calls, flags, false);
  }

  lemma {:induction false} FlagsCons(counts: map<string, nat>, tc: ToolCall, rest: seq<ToolCall>)
    ensures Flags(counts, [tc] + rest) == [IsRefused(counts, tc)] + Flags(Bump(counts, tc), rest)
  {
    assert ([tc] + rest)[1..] == rest;
  }

  /** The same file read three times in one batch, another call before the third. */
  lemma {:induction false} RepeatFlags(r: ToolCall, x: ToolCall)
    requires r.name == "read_file" && x.name != "read_file"
    ensures Flags(map[], [r, r, x, r]) == [false, false, false, true]
  {
    var c1 := Bump(map[], r);
    var c2 := Bump(c1, r);
    assert Count(c1, r.path) == 1 && Count(c2, r.path) == 2;
    assert [r] + [r, x, r] == [r, r, x, r] && [r] + [x, r] == [r, x, r] && [x] + [r] == [x, r] && [r] + [] == [r];
    FlagsCons(map[], r, [r, x, r]);
    FlagsCons(c1, r, [x, r]);
    FlagsCons(c2, x, [r]);
    FlagsCons(c2, r, []);
  }

  lemma {:induction false} RepeatIsOutOfStep(r: ToolCall, x: ToolCall)
    requires r.name == "read_file" && x.name != "read_file" && x.id != r.id
    ensures !Labels(map[], [r, r, x, r])
  {
    RepeatFlags(r, x);
    RepeatSelects(r, x, true);
    RepeatSelects(r, x, false);
    assert [r, r, x, r][1..] == [r, x, r] && [r, x, r][1..] == [x, r] && [r][1..] == [] && [r, r, x][1..] == [r, x];
    assert !InStep([x, r], [], [r, x]);
    assert !InStep([r, x, r], [], [r, r, x]);
  }

  lemma {:induction false} RepeatSelects(r: ToolCall, x: ToolCall, want: bool)
    ensures Select([r, r, x, r], [false, false, false, true], want) == if want then [r] else [r, r, x]
  {
    SelectCons(r, [r, x, r], [false, false, false, true], want);
    SelectCons(r, [x, r], [false, false, true], want);
    SelectCons(x, [r], [false, true], want);
    SelectCons(r, [], [true], want);
    assert [r] + [r, x, r] == [r, r, x, r] && [r] + [x, r] == [r, x, r] && [x] + [r] == [x, r] && [r] + [] == [r];
    assert [false, false, false, true][1..] == [false, false, true] && [false, false, true][1..] == [false, true];
    assert [false, true][1..] == [true] && [true][1..] == [];
  }

  lemma {:induction false} DuplicateFlags(r: ToolCall, x: ToolCall)
    requires r.name == "read_file" && x.name != "read_file"
    ensures Flags(map[r.path := 1], [r, x, r]) == [false, false, true]
  {
    var c0 := map[r.path := 1];
    var c1 := Bump(c0, r);
    assert [r, x, r][1..] == [x, r] && [x, r][1..] == [r];
    assert Flags(c0, [r, x, r]) == [false] + Flags(c1, [x, r]);
    assert Flags(c1, [x, r]) == [false] + Flags(c1, [r]);
    assert Flags(c1, [r]) == [true] + Flags(Bump(c1, r), []);
  }

  /** Duplicates break the pairing: a file already read once, then read, another call, and
      the same read again under the same id. The other call receives the read's result. */
  lemma {:induction false} DuplicateReadMisplacesResult(r: ToolCall, x: ToolCall, first: Result, second: Result)
    requires r.name == "read_file" && x.name != "read_file" && x.id != r.id
    requires first.id == r.id && second.id == x.id
    ensures Flags(map[r.path := 1], [r, x, r]) == [false, false, true]
    ensures Select([r, x, r], [false, false, true], false) == [r, x]
    ensures var blocked := Refusals(Select([r, x, r], [false, false, true], true));
      && Fits([r, x, r], blocked, [first, second])
      && Merge([r, x, r], blocked, [first, second])[1].id != x.id
  {
    DuplicateFlags(r, x);
    var calls, flags := [r, x, r], [false, false, true];
    assert calls[1..] == [x, r] && [x, r][1..] == [r];
    assert flags[1..] == [false, true] && [false, true][1..] == [true];
    assert Select([r], [true], true) == [r] && Select([x, r], [false, true], true) == [r];
    assert Select([r], [true], false) == [];
    assert Select([x, r], [false, true], false) == [x] + Select([r], [true], false) == [x];
    assert Select(calls, flags, true) == [r] && Select(calls, flags, false) == [r, x];
    var blocked := [Blocked(r, Refusal(r))];
    assert Refusals([r]) == blocked;
    MergeAlwaysCompletes(calls, flags, [first, second]);
    assert blocked[1..] == [];
    MergeHead(calls, blocked, [first, second], []);
    MergeHead([x, r], [], [first, second], []);
  }
}
