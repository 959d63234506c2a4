/**
  Retention of audit logs. A pass applies the active policies in name order to a shrinking
  table: each expired log is archived if the policy says so, and deleted.

  Logs keep the order the table returns them in. A blank or absent category is "".
*/
module AuditRetention {
  import opened Common

  datatype Log = Log(id: nat, timestamp: Time, category: string, data: string)

  datatype Policy = Policy(name: string, value: nat, unit: string, category: string, archives: bool, active: bool)

  datatype ArchiveRow = ArchiveRow(originalId: nat, log: Log, policy: string)

  /** `dropped` and `inserted` are history: logs deleted without archiving, and all logs. */
  datatype State = State(logs: seq<Log>, archive: seq<ArchiveRow>, dropped: seq<Log>, inserted: seq<Log>)

  datatype Event = Insert(log: Log) | Pass(readings: seq<Time>)

  function RetentionDays(p: Policy): nat {
    if p.unit == "days" then p.value
    else if p.unit == "months" then p.value * 30
    else if p.unit == "years" then p.value * 365
    else p.value
  }

  /** The policy applies to the log and its cutoff, taken at `now`, lies after the log. */
  predicate Expires(p: Policy, now: Time, log: Log) {
    && p.active
    && log.timestamp < now - RetentionDays(p) * DAY
    && (p.category == "" || p.category == log.category)
  }

  function Expired(p: Policy, now: Time, logs: seq<Log>): seq<Log> {
    if logs == [] then []
    else if Expires(p, now, logs[0]) then [logs[0]] + Expired(p, now, logs[1..])
    else Expired(p, now, logs[1..])
  }

  function Kept(p: Policy, now: Time, logs: seq<Log>): seq<Log> {
    if logs == [] then []
    else if Expires(p, now, logs[0]) then Kept(p, now, logs[1..])
    else [logs[0]] + Kept(p, now, logs[1..])
  }

  function Rows(logs: seq<Log>, policy: string): (r: seq<ArchiveRow>)
    ensures |r| == |logs| && forall i | 0 <= i < |r| :: r[i] == ArchiveRow(logs[i].id, logs[i], policy)
  {
    seq(|logs|, i requires 0 <= i < |logs| => ArchiveRow(logs[i].id, logs[i], policy))
  }

  function ApplyPolicy(p: Policy, now: Time, st: State): State {
    var gone := Expired(p, now, st.logs);
    st.(logs := Kept(p, now, st.logs),
        archive := if p.archives then st.archive + Rows(gone, p.name) else st.archive,
        dropped := if p.archives then st.dropped else st.dropped + gone)
  }

  /** One pass; policy k takes its own clock reading `readings[k]`. */
  function ApplyPass(ps: seq<Policy>, readings: seq<Time>, st: State): State
    requires |ps| == |readings|
  {
    if ps == [] then st else ApplyPass(ps[1..], readings[1..], ApplyPolicy(ps[0], readings[0], st))
  }

  // ----------------------------------------------------------------------- in place

  function IdsOf(logs: seq<Log>): set<nat> {
    set l | l in logs :: l.id
  }

  function Without(logs: seq<Log>, ids: set<nat>): seq<Log> {
    if logs == [] then []
    else if logs[0].id in ids then Without(logs[1..], ids)
    else [logs[0]] + Without(logs[1..], ids)
  }

  ghost predicate UniqueIds(logs: seq<Log>) {
    forall i, j | 0 <= i < j < |logs| :: logs[i].id != logs[j].id
  }

  lemma {:induction false} WithoutTwice(logs: seq<Log>, a: set<nat>, b: set<nat>)
    ensures Without(Without(logs, a), b) == Without(logs, a + b)
  {
    if logs != [] {
      WithoutTwice(logs[1..], a, b);
      var rest := Without(logs[1..], a);
      if logs[0].id !in a {
        assert Without(logs, a) == [logs[0]] + rest;
        assert ([logs[0]] + rest)[1..] == rest;
      } else {
        assert Without(logs, a) == rest;
      }
    }
  }

  lemma {:induction false} WithoutNothing(logs: seq<Log>)
    ensures Without(logs, {}) == logs
  {
    if logs != [] { WithoutNothing(logs[1..]); }
  }

  lemma {:induction false} WithoutIsKept(p: Policy, now: Time, logs: seq<Log>, ids: set<nat>)
    requires forall l | l in logs :: l.id in ids <==> Expires(p, now, l)
    ensures Without(logs, ids) == Kept(p, now, logs)
  {
    if logs != [] {
      assert logs[0] in logs && forall l | l in logs[1..] :: l in logs;
      WithoutIsKept(p, now, logs[1..], ids);
    }
  }

  lemma {:induction false} ExpiredMembers(p: Policy, now: Time, logs: seq<Log>, l: Log)
    ensures l in Expired(p, now, logs) <==> l in logs && Expires(p, now, l)
  {
    if logs != [] { ExpiredMembers(p, now, logs[1..], l); }
  }

  lemma {:induction false} DeletingExpiredKeepsRest(p: Policy, now: Time, logs: seq<Log>)
    requires UniqueIds(logs)
    ensures Without(logs, IdsOf(Expired(p, now, logs))) == Kept(p, now, logs)
  {
    var gone := Expired(p, now, logs);
    forall l | l in logs ensures l.id in IdsOf(gone) <==> Expires(p, now, l) {
      ExpiredMembers(p, now, logs, l);
      forall m | m in gone && m.id == l.id ensures m == l { ExpiredMembers(p, now, logs, m); }
    }
    WithoutIsKept(p, now, logs, IdsOf(gone));
  }

  /** One log archived if the policy says so, and deleted. */
  function Dispose(p: Policy, st: State, log: Log): State {
    st.(logs := Without(st.logs, {log.id}),
        archive := if p.archives then st.archive + [ArchiveRow(log.id, log, p.name)] else st.archive,
        dropped := if p.archives then st.dropped else st.dropped + [log])
  }

  /** The state when the logs in `gone` have been processed. */
  function Disposed(p: Policy, st: State, gone: seq<Log>): State {
    st.(logs := Without(st.logs, IdsOf(gone)),
        archive := if p.archives then st.archive + Rows(gone, p.name) else st.archive,
        dropped := if p.archives then st.dropped else st.dropped + gone)
  }

  lemma {:induction false} DisposedNone(p: Policy, st: State)
    ensures Disposed(p, st, []) == st
  {
    WithoutNothing(st.logs);
    assert IdsOf([]) == {} && Rows([], p.name) == [];
  }

  lemma {:induction false} DisposeOneMore(p: Policy, st: State, gone: seq<Log>, log: Log)
    ensures Dispose(p, Disposed(p, st, gone), log) == Disposed(p, st, gone + [log])
  {
    WithoutTwice(st.logs, IdsOf(gone), {log.id});
    assert IdsOf(gone + [log]) == IdsOf(gone) + {log.id};
    assert Rows(gone + [log], p.name) == Rows(gone, p.name) + [ArchiveRow(log.id, log, p.name)];
  }

  lemma {:induction false} DisposedAll(p: Policy, now: Time, st: State)
    requires UniqueIds(st.logs)
    ensures Disposed(p, st, Expired(p, now, st.logs)) == ApplyPolicy(p, now, st)
  {
    DeletingExpiredKeepsRest(p, now, st.logs);
  }

  class AuditStore {
    /** In name order, as the policies' table returns them. */
    var policies: seq<Policy>
    var logs: seq<Log>
    var archive: seq<ArchiveRow>
    ghost var dropped: seq<Log>
    ghost var inserted: seq<Log>

    ghost function View(): State
      reads this
    {
      State(logs, archive, dropped, inserted)
    }

    constructor (policies: seq<Policy>)
      ensures this.policies == policies && View() == State([], [], [], [])
    {
      this.policies := policies;
      logs, archive, dropped, inserted := [], [], [], [];
    }

    method LogAction(log: Log)
      requires UniqueIds(logs) && log.id !in IdsOf(logs)
      modifies this
      ensures UniqueIds(logs)
      ensures View() == Step(policies, old(View()), Insert(log)) && policies == old(policies)
    {
      logs := logs + [log];
      inserted := inserted + [log];
    }

    method ArchiveLog(log: Log, policy: Policy)
      modifies this`archive
      ensures archive == old(archive) + [ArchiveRow(log.id, log, policy.name)]
    {
      archive := archive + [ArchiveRow(log.id, log, policy.name)];
    }

    method DeleteLog(log: Log)
      modifies this`logs
      ensures logs == Without(old(logs), {log.id})
    {
      logs := Without(logs, {log.id});
    }

    method DisposeOf(log: Log, policy: Policy)
      modifies this
      ensures View() == Dispose(policy, old(View()), log) && policies == old(policies)
    {
      if policy.archives {
        ArchiveLog(log, policy);
      } else {
        dropped := dropped + [log];
      }
      DeleteLog(log);
    }

    /** One policy: archive-then-delete each log its query returned. */
    method ApplyOne(policy: Policy, now: Time)
      requires UniqueIds(logs)
      modifies this
      ensures View() == ApplyPolicy(policy, now, old(View())) && policies == old(policies)
    {
      var gone := Expired(policy, now, logs);
      DisposedNone(policy, View());
      for j := 0 to |gone|
        invariant View() == Disposed(policy, old(View()), gone[..j]) && policies == old(policies)
      {
        assert gone[..j + 1] == gone[..j] + [gone[j]];
        DisposeOneMore(policy, old(View()), gone[..j], gone[j]);
        DisposeOf(gone[j], policy);
      }
      assert gone[..|gone|] == gone;
      DisposedAll(policy, now, old(View()));
    }

    method ApplyRetentionPolicies(readings: seq<Time>)
      requires |readings| == |policies| && UniqueIds(logs)
      modifies this
      ensures View() == ApplyPass(old(policies), readings, old(View())) && policies == old(policies)
      ensures UniqueIds(logs)
    {
      for k := 0 to |policies|
        invariant policies == old(policies) && UniqueIds(logs)
        invariant ApplyPass(policies[k..], readings[k..], View()) == ApplyPass(old(policies), readings, old(View()))
      {
        assert policies[k..][1..] == policies[k + 1..] && readings[k..][1..] == readings[k + 1..];
        KeptIsUnique(policies[k], readings[k], logs);
        if policies[k].active {
          ApplyOne(policies[k], readings[k]);
        } else {
          InactiveDoesNothing(policies[k], readings[k], View());
        }
      }
    }
  }

  lemma {:induction false} KeptMembers(p: Policy, now: Time, logs: seq<Log>, l: Log)
    ensures l in Kept(p, now, logs) <==> l in logs && !Expires(p, now, l)
  {
    if logs != [] { KeptMembers(p, now, logs[1..], l); }
  }

  lemma {:induction false} KeptIsUnique(p: Policy, now: Time, logs: seq<Log>)
    requires UniqueIds(logs)
    ensures UniqueIds(Kept(p, now, logs))
  {
    if logs != [] {
      KeptIsUnique(p, now, logs[1..]);
      forall l | l in Kept(p, now, logs[1..]) ensures l.id != logs[0].id { KeptMembers(p, now, logs[1..], l); }
    }
  }

  lemma {:induction false} InactiveKeepsAll(p: Policy, now: Time, logs: seq<Log>)
    requires !p.active
    ensures Kept(p, now, logs) == logs && Expired(p, now, logs) == []
  {
    if logs != [] { InactiveKeepsAll(p, now, logs[1..]); }
  }

  lemma {:induction false} InactiveDoesNothing(p: Policy, now: Time, st: State)
    requires !p.active
    ensures ApplyPolicy(p, now, st) == st
  {
    InactiveKeepsAll(p, now, st.logs);
    assert Rows([], p.name) == [];
  }

  // ---------------------------------------------------------------------- survivors

  ghost predicate Doomed(ps: seq<Policy>, readings: seq<Time>, log: Log)
    requires |ps| == |readings|
  {
    exists k :: 0 <= k < |ps| && Expires(ps[k], readings[k], log)
  }

  ghost function Surviving(ps: seq<Policy>, readings: seq<Time>, logs: seq<Log>): seq<Log>
    requires |ps| == |readings|
  {
    if logs == [] then []
    else if Doomed(ps, readings, logs[0]) then Surviving(ps, readings, logs[1..])
    else [logs[0]] + Surviving(ps, readings, logs[1..])
  }

  lemma {:induction false} DoomedHead(ps: seq<Policy>, readings: seq<Time>, log: Log)
    requires |ps| == |readings| && ps != []
    ensures Doomed(ps, readings, log) <==> Expires(ps[0], readings[0], log) || Doomed(ps[1..], readings[1..], log)
  {
    if Doomed(ps[1..], readings[1..], log) {
      var k :| 0 <= k < |ps[1..]| && Expires(ps[1..][k], readings[1..][k], log);
      assert Expires(ps[k + 1], readings[k + 1], log);
    }
    if Doomed(ps, readings, log) && !Expires(ps[0], readings[0], log) {
      var k :| 0 <= k < |ps| && Expires(ps[k], readings[k], log);
      assert Expires(ps[1..][k - 1], readings[1..][k - 1], log);
    }
  }

  lemma {:induction false} SurvivingHead(ps: seq<Policy>, readings: seq<Time>, logs: seq<Log>)
    requires |ps| == |readings| && ps != []
    ensures Surviving(ps[1..], readings[1..], Kept(ps[0], readings[0], logs)) == Surviving(ps, readings, logs)
  {
    if logs != [] {
      SurvivingHead(ps, readings, logs[1..]);
      DoomedHead(ps, readings, logs[0]);
      var rest := Kept(ps[0], readings[0], logs[1..]);
      assert ([logs[0]] + rest)[1..] == rest;
    }
  }

  lemma {:induction false} NoPolicyKeepsAll(logs: seq<Log>)
    ensures Surviving([], [], logs) == logs
  {
    if logs != [] { NoPolicyKeepsAll(logs[1..]); }
  }

  /** After a pass a log is left exactly when no active policy that applies to it has a
      cutoff, at that policy's clock reading, later than the log. */
  lemma {:induction false} PassSurvivors(ps: seq<Policy>, readings: seq<Time>, st: State)
    requires |ps| == |readings|
    ensures ApplyPass(ps, readings, st).logs == Surviving(ps, readings, st.logs)
    decreases |ps|
  {
    if ps == [] {
      NoPolicyKeepsAll(st.logs);
    } else {
      PassSurvivors(ps[1..], readings[1..], ApplyPolicy(ps[0], readings[0], st));
      SurvivingHead(ps, readings, st.logs);
    }
  }

  lemma {:induction false} SameSurvivors(ps: seq<Policy>, rs: seq<Time>, qs: seq<Policy>, ts: seq<Time>, logs: seq<Log>)
    requires |ps| == |rs| && |qs| == |ts|
    requires forall l | l in logs :: Doomed(ps, rs, l) <==> Doomed(qs, ts, l)
    ensures Surviving(ps, rs, logs) == Surviving(qs, ts, logs)
  {
    if logs != [] {
      assert logs[0] in logs && forall l | l in logs[1..] :: l in logs;
      SameSurvivors(ps, rs, qs, ts, logs[1..]);
    }
  }

  /** At one fixed reading the logs left do not depend on the order of the policies. */
  lemma {:induction false} PolicyOrderIsIrrelevant(ps: seq<Policy>, qs: seq<Policy>, now: Time, st: State)
    requires forall p :: p in ps <==> p in qs
    ensures var rs, ts := seq(|ps|, _ => now), seq(|qs|, _ => now);
      ApplyPass(ps, rs, st).logs == ApplyPass(qs, ts, st).logs
  {
    var rs, ts := seq(|ps|, _ => now), seq(|qs|, _ => now);
    PassSurvivors(ps, rs, st);
    PassSurvivors(qs, ts, st);
    forall l | l in st.logs ensures Doomed(ps, rs, l) <==> Doomed(qs, ts, l) {
      if Doomed(ps, rs, l) {
        var k :| 0 <= k < |ps| && Expires(ps[k], rs[k], l);
        assert ps[k] in qs;
        var j :| 0 <= j < |qs| && qs[j] == ps[k];
        assert Expires(qs[j], ts[j], l);
      }
      if Doomed(qs, ts, l) {
        var k :| 0 <= k < |qs| && Expires(qs[k], ts[k], l);
        assert qs[k] in ps;
        var j :| 0 <= j < |ps| && ps[j] == qs[k];
        assert Expires(ps[j], rs[j], l);
      }
    }
    SameSurvivors(ps, rs, qs, ts, st.logs);
  }

  lemma {:induction false} SingleExpires(p: Policy, now: Time, log: Log)
    requires Expires(p, now, log)
    ensures Expired(p, now, [log]) == [log] && Kept(p, now, [log]) == []
  {
    assert Expired(p, now, [log]) == [log] + Expired(p, now, [log][1..]);
  }

  /** The archive does depend on it: whichever of two matching policies comes first decides. */
  lemma {:induction false} PolicyOrderDecidesArchive(a: Policy, b: Policy, log: Log, now: Time)
    requires a.archives && !b.archives && Expires(a, now, log) && Expires(b, now, log)
    ensures var st := State([log], [], [], [log]);
      && ApplyPass([a, b], [now, now], st).archive == [ArchiveRow(log.id, log, a.name)]
      && ApplyPass([b, a], [now, now], st).archive == []
  {
    var st := State([log], [], [], [log]);
    assert [a, b][1..] == [b] && [b, a][1..] == [a] && [now, now][1..] == [now];
    SingleExpires(a, now, log);
    SingleExpires(b, now, log);
    assert Rows([log], a.name) == [ArchiveRow(log.id, log, a.name)] && Rows([], a.name) == [];
    var sa, sb := ApplyPolicy(a, now, st), ApplyPolicy(b, now, st);
    assert ApplyPass([b], [now], sa) == ApplyPass([], [], ApplyPolicy(b, now, sa));
    assert ApplyPass([a], [now], sb) == ApplyPass([], [], ApplyPolicy(a, now, sb));
  }

  // ------------------------------------------------------------------- whole histories

  function Step(ps: seq<Policy>, st: State, e: Event): State {
    match e
    case Insert(log) => st.(logs := st.logs + [log], inserted := st.inserted + [log])
    case Pass(readings) => if |readings| == |ps| then ApplyPass(ps, readings, st) else st
  }

  function Run(ps: seq<Policy>, st: State, run: seq<Event>): State
    decreases |run|
  {
    if run == [] then st else Run(ps, Step(ps, st, run[0]), run[1..])
  }

  function InsertedBy(run: seq<Event>): seq<Log> {
    if run == [] then []
    else if run[0].Insert? then [run[0].log] + InsertedBy(run[1..])
    else InsertedBy(run[1..])
  }

  /** Every pass of the run took readings no later than `readings`. */
  ghost predicate NoLaterThan(ps: seq<Policy>, run: seq<Event>, readings: seq<Time>) {
    forall i | 0 <= i < |run| && run[i].Pass? ::
      |run[i].readings| == |ps| == |readings| && forall k | 0 <= k < |ps| :: run[i].readings[k] <= readings[k]
  }

  lemma {:induction false} SurvivingConcat(ps: seq<Policy>, rs: seq<Time>, a: seq<Log>, b: seq<Log>)
    requires |ps| == |rs|
    ensures Surviving(ps, rs, a + b) == Surviving(ps, rs, a) + Surviving(ps, rs, b)
  {
    if a == [] { assert a + b == b; } else {
      assert (a + b)[1..] == a[1..] + b;
      SurvivingConcat(ps, rs, a[1..], b);
    }
  }

  lemma {:induction false} SurvivingLater(ps: seq<Policy>, early: seq<Time>, late: seq<Time>, logs: seq<Log>)
    requires |ps| == |early| == |late| && forall k | 0 <= k < |ps| :: early[k] <= late[k]
    ensures Surviving(ps, late, Surviving(ps, early, logs)) == Surviving(ps, late, logs)
  {
    if logs != [] {
      SurvivingLater(ps, early, late, logs[1..]);
      if Doomed(ps, early, logs[0]) {
        var k :| 0 <= k < |ps| && Expires(ps[k], early[k], logs[0]);
        assert Expires(ps[k], late[k], logs[0]);
      }
      var rest := Surviving(ps, early, logs[1..]);
      assert ([logs[0]] + rest)[1..] == rest;
    }
  }

  lemma {:induction false} NoLaterThanRest(ps: seq<Policy>, run: seq<Event>, last: seq<Time>)
    requires run != [] && NoLaterThan(ps, run, last)
    ensures NoLaterThan(ps, run[1..], last)
  {
    forall i | 0 <= i < |run[1..]| && run[1..][i].Pass?
      ensures |run[1..][i].readings| == |ps| == |last| && forall k | 0 <= k < |ps| :: run[1..][i].readings[k] <= last[k]
    {
      assert run[1..][i] == run[i + 1];
    }
  }

  /** A pass early on makes no difference to what a later one leaves of logs and newcomers. */
  lemma {:induction false} EarlyPassIsAbsorbed(
    ps: seq<Policy>, early: seq<Time>, last: seq<Time>, st: State, more: seq<Log>)
    requires |ps| == |early| == |last| && forall k | 0 <= k < |ps| :: early[k] <= last[k]
    ensures Surviving(ps, last, ApplyPass(ps, early, st).logs + more) == Surviving(ps, last, st.logs + more)
  {
    PassSurvivors(ps, early, st);
    SurvivingConcat(ps, last, Surviving(ps, early, st.logs), more);
    SurvivingConcat(ps, last, st.logs, more);
    SurvivingLater(ps, early, last, st.logs);
  }

  lemma {:induction false} StepIsAbsorbed(ps: seq<Policy>, st: State, run: seq<Event>, last: seq<Time>)
    requires |last| == |ps| && run != [] && NoLaterThan(ps, run, last)
    ensures Surviving(ps, last, Step(ps, st, run[0]).logs + InsertedBy(run[1..]))
         == Surviving(ps, last, st.logs + InsertedBy(run))
  {
    match run[0]
    case Insert(log) => assert st.logs + [log] + InsertedBy(run[1..]) == st.logs + ([log] + InsertedBy(run[1..]));
    case Pass(readings) => EarlyPassIsAbsorbed(ps, readings, last, st, InsertedBy(run[1..]));
  }

  /** Whatever was inserted and passed before, a pass at later readings leaves exactly what
      it alone would have left of all the logs. */
  lemma {:induction false} LastPassDecides(ps: seq<Policy>, st: State, run: seq<Event>, last: seq<Time>)
    requires |last| == |ps| && NoLaterThan(ps, run, last)
    ensures Step(ps, Run(ps, st, run), Pass(last)).logs == Surviving(ps, last, st.logs + InsertedBy(run))
    decreases |run|
  {
    if run == [] {
      PassSurvivors(ps, last, st);
      assert st.logs + InsertedBy(run) == st.logs;
    } else {
      NoLaterThanRest(ps, run, last);
      LastPassDecides(ps, Step(ps, st, run[0]), run[1..], last);
      StepIsAbsorbed(ps, st, run, last);
    }
  }

  // --------------------------------------------------------------------- conservation

  function ArchivedLogs(archive: seq<ArchiveRow>): (r: seq<Log>)
    ensures |r| == |archive| && forall i | 0 <= i < |r| :: r[i] == archive[i].log
  {
    seq(|archive|, i requires 0 <= i < |archive| => archive[i].log)
  }

  /** Live, archived and dropped logs are together all logs ever inserted, each once. */
  ghost predicate Conserved(st: State) {
    && multiset(st.inserted) == multiset(st.logs) + multiset(ArchivedLogs(st.archive)) + multiset(st.dropped)
    && (forall i | 0 <= i < |st.archive| :: st.archive[i].originalId == st.archive[i].log.id)
  }

  lemma {:induction false} ExpiredAndKept(p: Policy, now: Time, logs: seq<Log>)
    ensures multiset(logs) == multiset(Expired(p, now, logs)) + multiset(Kept(p, now, logs))
  {
    if logs != [] {
      ExpiredAndKept(p, now, logs[1..]);
      assert logs == [logs[0]] + logs[1..];
    }
  }

  lemma {:induction false} ArchivedConcat(a: seq<ArchiveRow>, b: seq<ArchiveRow>)
    ensures ArchivedLogs(a + b) == ArchivedLogs(a) + ArchivedLogs(b)
  {
  }

  lemma {:induction false} PolicyConserves(p: Policy, now: Time, st: State)
    requires Conserved(st)
    ensures Conserved(ApplyPolicy(p, now, st))
  {
    ExpiredAndKept(p, now, st.logs);
    var gone := Expired(p, now, st.logs);
    var rows := Rows(gone, p.name);
    ArchivedConcat(st.archive, rows);
    assert ArchivedLogs(rows) == gone;
  }

  lemma {:induction false} PassConserves(ps: seq<Policy>, readings: seq<Time>, st: State)
    requires |ps| == |readings| && Conserved(st)
    ensures Conserved(ApplyPass(ps, readings, st)) && ApplyPass(ps, readings, st).inserted == st.inserted
    decreases |ps|
  {
    if ps != [] {
      PolicyConserves(ps[0], readings[0], st);
      PassConserves(ps[1..], readings[1..], ApplyPolicy(ps[0], readings[0], st));
    }
  }

  lemma {:induction false} StepConserves(ps: seq<Policy>, st: State, e: Event)
    requires Conserved(st)
    ensures Conserved(Step(ps, st, e))
    ensures Step(ps, st, e).inserted == st.inserted + if e.Insert? then [e.log] else []
  {
    match e
    case Insert(log) =>
    case Pass(readings) => if |readings| == |ps| { PassConserves(ps, readings, st); }
  }

  lemma {:induction false} InsertedStep(run: seq<Event>, before: seq<Log>)
    requires run != []
    ensures before + (if run[0].Insert? then [run[0].log] else []) + InsertedBy(run[1..]) == before + InsertedBy(run)
  {
  }

  lemma {:induction false} RunConserves(ps: seq<Policy>, st: State, run: seq<Event>)
    requires Conserved(st)
    ensures Conserved(Run(ps, st, run)) && Run(ps, st, run).inserted == st.inserted + InsertedBy(run)
    decreases |run|
  {
    if run != [] {
      StepConserves(ps, st, run[0]);
      InsertedStep(run, st.inserted);
      RunConserves(ps, Step(ps, st, run[0]), run[1..]);
    }
  }

  /** Over all passes, when no id is inserted twice: no id is archived twice, dropped twice,
      or in two of the live table, the archive and the dropped logs. */
  lemma {:induction false} NothingLostOrDoubled(ps: seq<Policy>, run: seq<Event>)
    requires UniqueIds(InsertedBy(run))
    ensures var st := Run(ps, State([], [], [], []), run);
      && Conserved(st)
      && UniqueIds(st.logs + ArchivedLogs(st.archive) + st.dropped)
  {
    var empty := State([], [], [], []);
    RunConserves(ps, empty, run);
    var st := Run(ps, empty, run);
    assert empty.inserted + InsertedBy(run) == InsertedBy(run);
    var parts := st.logs + ArchivedLogs(st.archive) + st.dropped;
    assert multiset(parts) == multiset(st.inserted);
    UniqueIdsByMultiset(st.inserted, parts);
  }

  lemma {:induction false} UniqueIdsByMultiset(a: seq<Log>, b: seq<Log>)
    requires UniqueIds(a) && multiset(a) == multiset(b)
    ensures UniqueIds(b)
  {
    forall i, j | 0 <= i < j < |b| ensures b[i].id != b[j].id {
      if b[i] == b[j] {
        TwiceInMultiset(b, i, j);
        OnceInMultiset(a, b[i]);
      } else {
        assert b[i] in multiset(a) && b[j] in multiset(a);
        var m, n :| 0 <= m < |a| && 0 <= n < |a| && a[m] == b[i] && a[n] == b[j];
      }
    }
  }

  lemma {:induction false} TwiceInMultiset(s: seq<Log>, i: nat, j: nat)
    requires i < j < |s| && s[i] == s[j]
    ensures multiset(s)[s[i]] >= 2
  {
    assert s == s[..i] + [s[i]] + s[i + 1..j] + [s[j]] + s[j + 1..];
  }

  lemma {:induction false} OnceInMultiset(s: seq<Log>, x: Log)
    requires UniqueIds(s)
    ensures multiset(s)[x] <= 1
  {
    if s != [] {
      OnceInMultiset(s[1..], x);
      assert s == [s[0]] + s[1..];
      if x == s[0] { assert x !in s[1..]; }
    }
  }

  // ---------------------------------------------------------------------- attribution

  /** The position of the first policy that expires the log, |ps| if none does. */
  function FirstMatch(ps: seq<Policy>, readings: seq<Time>, log: Log): (k: nat)
    requires |ps| == |readings|
    ensures k <= |ps| && (k < |ps| ==> Expires(ps[k], readings[k], log))
    ensures forall j | 0 <= j < k :: !Expires(ps[j], readings[j], log)
  {
    if ps == [] then 0
    else if Expires(ps[0], readings[0], log) then 0
    else 1 + FirstMatch(ps[1..], readings[1..], log)
  }

  lemma {:induction false} PassAttributes(ps: seq<Policy>, readings: seq<Time>, st: State, r: ArchiveRow)
    requires |ps| == |readings|
    ensures r in ApplyPass(ps, readings, st).archive <==>
      || r in st.archive
      || var k := FirstMatch(ps, readings, r.log);
         k < |ps| && ps[k].archives && r.log in st.logs && r == ArchiveRow(r.log.id, r.log, ps[k].name)
    decreases |ps|
  {
    if ps != [] {
      var p, now := ps[0], readings[0];
      PassAttributes(ps[1..], readings[1..], ApplyPolicy(p, now, st), r);
      KeptMembers(p, now, st.logs, r.log);
      ExpiredMembers(p, now, st.logs, r.log);
      var rows := Rows(Expired(p, now, st.logs), p.name);
      assert r in rows <==> r.log in Expired(p, now, st.logs) && r == ArchiveRow(r.log.id, r.log, p.name);
    }
  }
}
