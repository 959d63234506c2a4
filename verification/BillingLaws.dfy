/**
  What the billing aggregation writes, month by month, in terms of dates and costs.
*/
module BillingLaws {
  import opened Common
  import opened BillingSummary

  /** The costs of the user's logs of one month of one year; a missing cost counts nothing. */
  function SpentIn(logs: seq<UsageLog>, user: nat, year: int, month: nat): real {
    if logs == [] then 0.0
    else
      var rest := SpentIn(logs[1..], user, year, month);
      var l := logs[0];
      if l.user == user && l.day.year == year && l.day.month == month && l.cost.Some? then l.cost.value + rest else rest
  }

  predicate HasLogIn(logs: seq<UsageLog>, user: nat, year: int, month: nat) {
    exists l | l in logs :: l.user == user && l.day.year == year && l.day.month == month
  }

  lemma {:induction false} SpentIsCharged(logs: seq<UsageLog>, user: nat, year: int, month: nat)
    ensures Charged(logs, user, Date(year, month, 1)) == SpentIn(logs, user, year, month)
  {
    if logs != [] { SpentIsCharged(logs[1..], user, year, month); }
  }

  lemma {:induction false} LogIsBilled(logs: seq<UsageLog>, user: nat, year: int, month: nat, day: nat)
    ensures Billed(logs, user, Date(year, month, day)) <==> day == 1 && HasLogIn(logs, user, year, month)
  {
    if Billed(logs, user, Date(year, month, day)) {
      var l :| l in logs && l.user == user && MonthOf(l.day) == Date(year, month, day);
    }
    if day == 1 && HasLogIn(logs, user, year, month) {
      var l :| l in logs && l.user == user && l.day.year == year && l.day.month == month;
      assert MonthOf(l.day) == Date(year, month, 1);
    }
  }

  /** One row per month with a log, keyed by its first day and no country, holding the
      month's costs and no tax; every other row of the table is as it was. */
  lemma {:induction false} MonthRows(table: Summaries, logs: seq<UsageLog>, user: nat, token: string, k: Key)
    ensures var r := Aggregated(table, logs, user, token);
      if k.token == token && k.country == "" && k.month.day == 1 && HasLogIn(logs, user, k.month.year, k.month.month)
      then k in r && r[k] == Charge(SpentIn(logs, user, k.month.year, k.month.month), 0.0)
      else (k in r <==> k in table) && (k in r ==> r[k] == table[k])
  {
    MonthlyTotals(table, logs, user, token, k);
    assert k.month == Date(k.month.year, k.month.month, k.month.day);
    LogIsBilled(logs, user, k.month.year, k.month.month, k.month.day);
    SpentIsCharged(logs, user, k.month.year, k.month.month);
  }
}
