/**
  Monthly billing totals kept, under an anonymised token, when an account is deleted.
  Amounts are exact.
*/
module BillingSummary {
  import opened Common

  datatype Date = Date(year: int, month: nat, day: nat)

  datatype UsageLog = UsageLog(user: nat, day: Date, cost: Option<real>)

  datatype Key = Key(token: string, month: Date, country: string)

  datatype Charge = Charge(total: real, tax: real)

  type Summaries = map<Key, Charge>

  function MonthOf(d: Date): Date {
    d.(day := 1)
  }

  function CostOf(log: UsageLog): real {
    if log.cost.Some? then log.cost.value else 0.0
  }

  /** The logs of `user` among all logs, oldest table order kept. */
  function LogsOf(logs: seq<UsageLog>, user: nat): seq<UsageLog> {
    if logs == [] then []
    else if logs[0].user == user then [logs[0]] + LogsOf(logs[1..], user)
    else LogsOf(logs[1..], user)
  }

  /** What `user` was charged in `month`, straight from the ledger. */
  function Charged(logs: seq<UsageLog>, user: nat, month: Date): real {
    if logs == [] then 0.0
    else
      var rest := Charged(logs[1..], user, month);
      if logs[0].user == user && MonthOf(logs[0].day) == month then CostOf(logs[0]) + rest else rest
  }

  function ChargedInAll(logs: seq<UsageLog>, user: nat): real {
    if logs == [] then 0.0
    else (if logs[0].user == user then CostOf(logs[0]) else 0.0) + ChargedInAll(logs[1..], user)
  }

  predicate Billed(logs: seq<UsageLog>, user: nat, month: Date) {
    exists l | l in logs :: l.user == user && MonthOf(l.day) == month
  }

  // ------------------------------------------------------------------ the aggregation

  /** One log added to the running sums. */
  function Accumulate(sums: map<Date, Charge>, log: UsageLog): map<Date, Charge> {
    var month := MonthOf(log.day);
    var sum := if month in sums then sums[month] else Charge(0.0, 0.0);
    sums[month := sum.(total := sum.total + CostOf(log))]
  }

  function Fold(sums: map<Date, Charge>, logs: seq<UsageLog>): map<Date, Charge>
    decreases |logs|
  {
    if logs == [] then sums else Fold(Accumulate(sums, logs[0]), logs[1..])
  }

  /** The table after the sums of one token were written to it. */
  function Written(table: Summaries, token: string, sums: map<Date, Charge>): Summaries {
    table + map k | k in KeysOf(token, sums.Keys) :: sums[k.month]
  }

  function KeysOf(token: string, months: set<Date>): (r: set<Key>)
    ensures forall k :: k in r <==> k.token == token && k.country == "" && k.month in months
  {
    var r := set m | m in months :: Key(token, m, "");
    assert forall k: Key :: k.token == token && k.country == "" ==> k == Key(token, k.month, "");
    r
  }

  function Aggregated(table: Summaries, logs: seq<UsageLog>, user: nat, token: string): Summaries {
    Written(table, token, Fold(map[], LogsOf(logs, user)))
  }

  class Billing {
    var usage: seq<UsageLog>
    var summaries: Summaries

    constructor (usage: seq<UsageLog>)
      ensures this.usage == usage && summaries == map[]
    {
      this.usage := usage;
      summaries := map[];
    }

    method AggregateBilling(user: nat, token: string)
      modifies this`summaries
      ensures summaries == Aggregated(old(summaries), usage, user, token)
    {
      var sums := SumByMonth(LogsOf(usage, user));
      StoreSums(token, sums);
    }

    method StoreSums(token: string, sums: map<Date, Charge>)
      modifies this`summaries
      ensures summaries == Written(old(summaries), token, sums)
    {
      var pending := sums.Keys;
      AllPending(summaries, token, sums);
      while pending != {}
        invariant pending <= sums.Keys
        invariant summaries == WrittenBut(old(summaries), token, sums, pending)
        decreases |pending|
      {
        var month :| month in pending;
        OneFewerPending(old(summaries), token, sums, pending, month);
        UpdateOrCreate(Key(token, month, ""), sums[month]);
        pending := pending - {month};
      }
      NonePending(old(summaries), token, sums);
    }

    method UpdateOrCreate(k: Key, charge: Charge)
      modifies this`summaries
      ensures summaries == old(summaries)[k := charge]
    {
      summaries := summaries[k := charge];
    }
  }

  /** The table while the sums of the `pending` months are still to be written. */
  ghost function WrittenBut(table: Summaries, token: string, sums: map<Date, Charge>, pending: set<Date>): Summaries {
    Written(table, token, sums - pending)
  }

  lemma {:induction false} AllPending(table: Summaries, token: string, sums: map<Date, Charge>)
    ensures WrittenBut(table, token, sums, sums.Keys) == table
  {
  }

  lemma {:induction false} NonePending(table: Summaries, token: string, sums: map<Date, Charge>)
    ensures WrittenBut(table, token, sums, {}) == Written(table, token, sums)
  {
    assert sums - {} == sums;
  }

  lemma {:induction false} OneFewerPending(
    table: Summaries, token: string, sums: map<Date, Charge>, pending: set<Date>, month: Date)
    requires month in pending && month in sums
    ensures WrittenBut(table, token, sums, pending - {month})
         == WrittenBut(table, token, sums, pending)[Key(token, month, "") := sums[month]]
  {
    PutBack(sums, pending, month);
    WrittenOneMore(table, token, sums - pending, month, sums[month]);
  }

  lemma {:induction false} PutBack(sums: map<Date, Charge>, pending: set<Date>, month: Date)
    requires month in pending && month in sums
    ensures (sums - pending)[month := sums[month]] == sums - (pending - {month})
  {
  }

  lemma {:induction false} WrittenOneMore(
    table: Summaries, token: string, sums: map<Date, Charge>, month: Date, charge: Charge)
    ensures Written(table, token, sums[month := charge]) == Written(table, token, sums)[Key(token, month, "") := charge]
  {
  }

  method SumByMonth(logs: seq<UsageLog>) returns (sums: map<Date, Charge>)
    ensures sums == Fold(map[], logs)
  {
    sums := map[];
    for i := 0 to |logs|
      invariant Fold(sums, logs[i..]) == Fold(map[], logs)
    {
      assert logs[i..][1..] == logs[i + 1..];
      ghost var next := Accumulate(sums, logs[i]);
      var month := MonthOf(logs[i].day);
      if month !in sums { sums := sums[month := Charge(0.0, 0.0)]; }
      sums := sums[month := sums[month].(total := sums[month].total + CostOf(logs[i]))];
      assert sums == next;
    }
  }

  // --------------------------------------------------------------- the monthly totals

  lemma {:induction false} FoldIsCharged(sums: map<Date, Charge>, logs: seq<UsageLog>, user: nat, month: Date)
    ensures var r := Fold(sums, LogsOf(logs, user));
      && (month in r <==> month in sums || Billed(logs, user, month))
      && (month in r ==>
           && r[month].total == (if month in sums then sums[month].total else 0.0) + Charged(logs, user, month)
           && r[month].tax == if month in sums then sums[month].tax else 0.0)
    decreases |logs|
  {
    if logs != [] {
      var mine := LogsOf(logs[1..], user);
      if logs[0].user == user {
        assert LogsOf(logs, user)[1..] == mine;
        FoldIsCharged(Accumulate(sums, logs[0]), logs[1..], user, month);
      } else {
        FoldIsCharged(sums, logs[1..], user, month);
      }
      assert Billed(logs, user, month) <==>
        (logs[0].user == user && MonthOf(logs[0].day) == month) || Billed(logs[1..], user, month);
      if !Billed(logs[1..], user, month) { NothingCharged(logs[1..], user, month); }
    }
  }

  lemma {:induction false} NothingCharged(logs: seq<UsageLog>, user: nat, month: Date)
    requires !Billed(logs, user, month)
    ensures Charged(logs, user, month) == 0.0
  {
    if logs != [] {
      assert logs[0] in logs && forall l | l in logs[1..] :: l in logs;
      NothingCharged(logs[1..], user, month);
    }
  }

  /** Every month with a log has a row with what the ledger charges for it; no other row
      of the table changes, and no row appears for a month without a log. */
  lemma {:induction false} MonthlyTotals(table: Summaries, logs: seq<UsageLog>, user: nat, token: string, k: Key)
    ensures var r := Aggregated(table, logs, user, token);
      if k.token == token && k.country == "" && Billed(logs, user, k.month) then
        k in r && r[k] == Charge(Charged(logs, user, k.month), 0.0)
      else (k in r <==> k in table) && (k in r ==> r[k] == table[k])
  {
    FoldIsCharged(map[], logs, user, k.month);
  }

  ghost function Total(sums: map<Date, Charge>): real {
    if sums == map[] then 0.0 else var m :| m in sums; sums[m].total + Total(sums - {m})
  }

  lemma {:induction false} TotalRemove(sums: map<Date, Charge>, k: Date)
    requires k in sums
    ensures Total(sums) == sums[k].total + Total(sums - {k})
    decreases |sums|
  {
    var m :| m in sums && Total(sums) == sums[m].total + Total(sums - {m});
    if m != k {
      TotalRemove(sums - {m}, k);
      TotalRemove(sums - {k}, m);
      assert sums - {m} - {k} == sums - {k} - {m};
    }
  }

  lemma {:induction false} AccumulateTotal(sums: map<Date, Charge>, log: UsageLog)
    ensures Total(Accumulate(sums, log)) == Total(sums) + CostOf(log)
  {
    var month := MonthOf(log.day);
    var after := Accumulate(sums, log);
    TotalRemove(after, month);
    assert after - {month} == sums - {month};
    if month in sums { TotalRemove(sums, month); } else { assert sums - {month} == sums; }
  }

  /** The monthly totals add up to everything the user was ever charged. */
  lemma {:induction false} MonthsAddUp(sums: map<Date, Charge>, logs: seq<UsageLog>, user: nat)
    ensures Total(Fold(sums, LogsOf(logs, user))) == Total(sums) + ChargedInAll(logs, user)
    decreases |logs|
  {
    if logs != [] {
      if logs[0].user == user {
        assert LogsOf(logs, user)[1..] == LogsOf(logs[1..], user);
        AccumulateTotal(sums, logs[0]);
        MonthsAddUp(Accumulate(sums, logs[0]), logs[1..], user);
      } else {
        MonthsAddUp(sums, logs[1..], user);
      }
    }
  }

  // --------------------------------------------------------------- running it again

  lemma {:induction false} BilledGrows(logs: seq<UsageLog>, more: seq<UsageLog>, user: nat, month: Date)
    ensures Billed(logs, user, month) ==> Billed(logs + more, user, month)
  {
  }

  /** A run over a grown ledger leaves what it alone would have left: earlier runs, and
      runs repeated, leave no trace. */
  lemma {:induction false} RerunAbsorbsEarlier(
    table: Summaries, logs: seq<UsageLog>, more: seq<UsageLog>, user: nat, token: string)
    ensures Aggregated(Aggregated(table, logs, user, token), logs + more, user, token)
         == Aggregated(table, logs + more, user, token)
  {
    var twice := Aggregated(Aggregated(table, logs, user, token), logs + more, user, token);
    var once := Aggregated(table, logs + more, user, token);
    forall k: Key ensures (k in twice <==> k in once) && (k in twice ==> twice[k] == once[k]) {
      MonthlyTotals(Aggregated(table, logs, user, token), logs + more, user, token, k);
      MonthlyTotals(table, logs, user, token, k);
      MonthlyTotals(table, logs + more, user, token, k);
      BilledGrows(logs, more, user, k.month);
    }
  }

  /** Two users with different tokens do not touch each other's rows, whoever goes first. */
  lemma {:induction false} UsersCommute(table: Summaries, logs: seq<UsageLog>, u: nat, v: nat, token: nat -> string)
    requires token(u) != token(v)
    ensures Aggregated(Aggregated(table, logs, u, token(u)), logs, v, token(v))
         == Aggregated(Aggregated(table, logs, v, token(v)), logs, u, token(u))
  {
    var uv := Aggregated(Aggregated(table, logs, u, token(u)), logs, v, token(v));
    var vu := Aggregated(Aggregated(table, logs, v, token(v)), logs, u, token(u));
    forall k: Key ensures (k in uv <==> k in vu) && (k in uv ==> uv[k] == vu[k]) {
      MonthlyTotals(table, logs, u, token(u), k);
      MonthlyTotals(table, logs, v, token(v), k);
      MonthlyTotals(Aggregated(table, logs, u, token(u)), logs, v, token(v), k);
      MonthlyTotals(Aggregated(table, logs, v, token(v)), logs, u, token(u), k);
    }
  }

  /** The accounts of a whole purge, one after the other. */
  function AggregatedAll(table: Summaries, logs: seq<UsageLog>, users: seq<nat>, token: nat -> string): Summaries
    decreases |users|
  {
    if users == [] then table
    else AggregatedAll(Aggregated(table, logs, users[0], token(users[0])), logs, users[1..], token)
  }

  /** After any number of users in any order, with distinct tokens, each user's row for each
      month is what the ledger charges that user, and rows of nobody aggregated are as before. */
  lemma {:induction false} EveryUserBilled(
    table: Summaries, logs: seq<UsageLog>, users: seq<nat>, token: nat -> string, user: nat, month: Date)
    requires forall u, v | token(u) == token(v) :: u == v
    ensures var r, k := AggregatedAll(table, logs, users, token), Key(token(user), month, "");
      if user in users && Billed(logs, user, month) then k in r && r[k] == Charge(Charged(logs, user, month), 0.0)
      else (k in r <==> k in table) && (k in r ==> r[k] == table[k])
    decreases |users|
  {
    if users != [] {
      EveryUserBilled(Aggregated(table, logs, users[0], token(users[0])), logs, users[1..], token, user, month);
      MonthlyTotals(table, logs, users[0], token(users[0]), Key(token(user), month, ""));
      assert user in users <==> user == users[0] || user in users[1..];
    }
  }
}
