/**
  How long each retention policy keeps a log, and what an archive row holds.
*/
module RetentionLaws {
  import opened Common
  import opened AuditRetention

  /** Days in each unit; an unknown unit counts in days. */
  lemma {:induction false} DaysKept(p: Policy)
    ensures p.unit == "days" ==> RetentionDays(p) == p.value
    ensures p.unit == "months" ==> RetentionDays(p) == 30 * p.value
    ensures p.unit == "years" ==> RetentionDays(p) == 365 * p.value
    ensures p.unit !in {"days", "months", "years"} ==> RetentionDays(p) == p.value
  {
    if p.unit == "months" { assert |p.unit| == 6; }
    if p.unit == "years" { assert |p.unit| == 5; }
  }

  lemma {:induction false} PassOfOne(p: Policy, now: Time, st: State)
    ensures ApplyPass([p], [now], st) == ApplyPolicy(p, now, st)
  {
    assert [p][1..] == [] && [now][1..] == [];
    assert ApplyPass([], [], ApplyPolicy(p, now, st)) == ApplyPolicy(p, now, st);
  }

  lemma {:induction false} ExpiresIff(p: Policy, now: Time, log: Log)
    ensures Expires(p, now, log) <==>
      && p.active && (p.category == "" || p.category == log.category)
      && log.timestamp < now - RetentionDays(p) * 24 * 3600 * 1_000_000
  {
  }

  /** A single policy deletes a log exactly if it is active, for every category or the log's,
      and the log is older than its days at that reading. */
  lemma {:induction false} OnePolicyDeletesIff(p: Policy, now: Time, st: State, log: Log)
    requires log in st.logs
    ensures log !in ApplyPass([p], [now], st).logs <==>
      && p.active && (p.category == "" || p.category == log.category)
      && log.timestamp < now - RetentionDays(p) * 24 * 3600 * 1_000_000
  {
    PassOfOne(p, now, st);
    KeptMembers(p, now, st.logs, log);
    ExpiresIff(p, now, log);
  }

  /** And then it is archived, under its own id and the policy's name, or not at all. */
  lemma {:induction false} OnePolicyArchivesIff(p: Policy, now: Time, st: State, r: ArchiveRow)
    requires st.archive == []
    ensures r in ApplyPass([p], [now], st).archive <==>
      && r.log in st.logs && r.log !in ApplyPass([p], [now], st).logs
      && p.archives && r.originalId == r.log.id && r.policy == p.name
  {
    PassOfOne(p, now, st);
    KeptMembers(p, now, st.logs, r.log);
    ExpiredMembers(p, now, st.logs, r.log);
    RowsMembers(Expired(p, now, st.logs), p.name, r);
  }

  lemma {:induction false} RowsMembers(logs: seq<Log>, policy: string, r: ArchiveRow)
    ensures r in [] + Rows(logs, policy) <==> r.log in logs && r.originalId == r.log.id && r.policy == policy
  {
    var rows := Rows(logs, policy);
    assert [] + rows == rows;
    if r.log in logs && r.originalId == r.log.id && r.policy == policy {
      var i :| 0 <= i < |logs| && logs[i] == r.log;
      assert rows[i] == r;
    }
  }

  lemma {:induction false} LoggingAppends(ps: seq<Policy>, st: State, log: Log)
    ensures var st' := Step(ps, st, Insert(log)); st'.logs == st.logs + [log] && st'.archive == st.archive
  {
  }
}
