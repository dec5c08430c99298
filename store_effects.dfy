/** How the writing routes show up in the two reports: a rename changes only
    the renamed line's label, and a delete takes back exactly what the
    deleted row contributed. */
module StoreEffects {
  import opened Ledger
  import opened Balances
  import YearReport
  import FinancialReport
  import Accounts

  /** After update_account_name the yearly report has the same balances
      everywhere; only line `k` carries the new name. */
  lemma RenameKeepsYearReport(year: int, accounts: seq<Account>, txns: seq<Transaction>, k: nat, name: string)
    requires k < |accounts|
    ensures
      var before := YearReport.ReportOf(year, accounts, txns).value;
      YearReport.ReportOf(year, Accounts.Renamed(accounts, k, name), txns).value
        == before.(report := before.report[k := before.report[k].(account := name)])
  {
    var renamed := Accounts.Renamed(accounts, k, name);
    var rows := YearReport.SelectYear(txns, year);
    YearReport.StartingBalancesIgnoreNames(renamed, accounts);
    var before := YearReport.Lines(accounts, rows);
    var after := YearReport.Lines(renamed, rows);
    assert after == before[k := before[k].(account := name)];
  }

  /** After update_account_name the financial report has the same lists and
      the same totals; only entry `k` carries the new name. */
  lemma RenameKeepsFinancialReport(year: int, accounts: seq<Account>, txns: seq<Transaction>, k: nat, name: string)
    requires k < |accounts|
    ensures
      var before := FinancialReport.ReportOf(year, accounts, txns);
      FinancialReport.ReportOf(year, Accounts.Renamed(accounts, k, name), txns)
        == before.(report := before.report[k := before.report[k].(accountName := name)])
  {
    var renamed := Accounts.Renamed(accounts, k, name);
    FinancialReport.StartTotalIgnoresNames(renamed, accounts);
    var before := FinancialReport.Summaries(accounts, txns, year);
    var after := FinancialReport.Summaries(renamed, txns, year);
    assert after == before[k := before[k].(accountName := name)];
    assert FinancialReport.Columns(after) == FinancialReport.Columns(before);
  }

  /** delete_transaction reverses no balance, yet the yearly report computed
      after it lacks exactly what the deleted row added: from the row's month
      on, each line drops by that row's leg for the account. */
  lemma DeleteShiftsYearBalances(year: int, accounts: seq<Account>, txns: seq<Transaction>, k: nat, i: nat, m: nat)
    requires k < |txns| && i < |accounts| && m < 12
    ensures
      var t := txns[k];
      YearReport.BalanceAt(year, accounts, txns, i, m)
        == YearReport.BalanceAt(year, accounts, txns[..k] + txns[k + 1..], i, m)
           + (if YearReport.Selected(t, year) && MonthIndex(t.date.value) <= m
              then YearReport.Leg(t, Some(accounts[i].id)) else 0)
  {
    assert txns == txns[..k] + [txns[k]] + txns[k + 1..];
    YearRowRemoved(year, accounts, txns[..k], txns[k], txns[k + 1..], i, m);
  }

  /** The yearly balances over a table with row `t` between `a` and `b`,
      against the same table without it. */
  lemma YearRowRemoved(year: int, accounts: seq<Account>, a: seq<Transaction>, t: Transaction, b: seq<Transaction>, i: nat, m: nat)
    requires i < |accounts| && m < 12
    ensures YearReport.BalanceAt(year, accounts, a + [t] + b, i, m)
         == YearReport.BalanceAt(year, accounts, a + b, i, m)
            + (if YearReport.Selected(t, year) && MonthIndex(t.date.value) <= m
               then YearReport.Leg(t, Some(accounts[i].id)) else 0)
  {
    var sa := YearReport.SelectYear(a, year);
    var sb := YearReport.SelectYear(b, year);
    YearReport.SelectYearAround(a, t, b, year);
    YearReport.LineFromBuckets(year, accounts, a + b, i);
    YearReport.LineFromBuckets(year, accounts, a + [t] + b, i);
    if YearReport.Selected(t, year) {
      YearReport.InsertedRowShift(sa, t, sb, Some(accounts[i].id), YearReport.LineStart(accounts, i), m);
    } else {
      assert YearReport.SelectYear(a + [t] + b, year) == sa + sb by {
        assert sa + [] + sb == sa + sb;
      }
    }
  }

  /** The same for the financial report: the account the deleted row was
      recorded against loses its signed amount from the row's month on. */
  lemma DeleteShiftsSummary(year: int, accounts: seq<Account>, txns: seq<Transaction>, k: nat, i: nat, m: nat)
    requires k < |txns| && i < |accounts| && m < 12
    ensures
      var t := txns[k];
      FinancialReport.ReportOf(year, accounts, txns).report[i].monthly[m]
        == FinancialReport.ReportOf(year, accounts, txns[..k] + txns[k + 1..]).report[i].monthly[m]
           + (if FinancialReport.Selected(t, accounts[i].id, year) && MonthIndex(t.date.value) <= m
              then FinancialReport.Signed(t) else 0)
  {
    assert txns == txns[..k] + [txns[k]] + txns[k + 1..];
    SummaryRowRemoved(year, accounts, txns[..k], txns[k], txns[k + 1..], i, m);
  }

  /** The financial report's lists over a table with row `t` between `a`
      and `b`, against the same table without it. */
  lemma SummaryRowRemoved(year: int, accounts: seq<Account>, a: seq<Transaction>, t: Transaction, b: seq<Transaction>, i: nat, m: nat)
    requires i < |accounts| && m < 12
    ensures FinancialReport.ReportOf(year, accounts, a + [t] + b).report[i].monthly[m]
         == FinancialReport.ReportOf(year, accounts, a + b).report[i].monthly[m]
            + (if FinancialReport.Selected(t, accounts[i].id, year) && MonthIndex(t.date.value) <= m
               then FinancialReport.Signed(t) else 0)
  {
    var id := accounts[i].id;
    var sa := FinancialReport.SelectAccountYear(a, id, year);
    var sb := FinancialReport.SelectAccountYear(b, id, year);
    FinancialReport.SelectAccountYearAround(a, t, b, id, year);
    FinancialReport.SummaryFromSums(year, accounts, a + b, i);
    FinancialReport.SummaryFromSums(year, accounts, a + [t] + b, i);
    if FinancialReport.Selected(t, id, year) {
      FinancialReport.InsertedRowShift(sa, t, sb, accounts[i].startingBalance, m);
    } else {
      assert FinancialReport.SelectAccountYear(a + [t] + b, id, year) == sa + sb by {
        assert sa + [] + sb == sa + sb;
      }
    }
  }
}
