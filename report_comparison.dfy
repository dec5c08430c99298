/** The two report handlers side by side: they agree on a ledger of income
    and expense transactions and part ways on transfers. */
module ReportComparison {
  import opened Ledger
  import opened Balances
  import YearReport
  import FinancialReport
  import Transactions

  /** For income and expense rows the two selections and bucketings coincide:
      by `account_id`, by year, `+amount` for income and `-amount` otherwise. */
  lemma {:induction false} BucketsAgree(txns: seq<Transaction>, year: int, id: int, m: nat)
    requires forall t :: t in txns ==> Transactions.IncomeOrExpense(t.kind)
    ensures YearReport.Bucket(YearReport.SelectYear(txns, year), Some(id), m)
         == FinancialReport.MonthlySum(FinancialReport.SelectAccountYear(txns, id, year), m)
  {
    if txns != [] {
      var n := |txns| - 1;
      var t := txns[n];
      assert t in txns;
      assert txns == txns[..n] + [t];
      assert forall u :: u in txns[..n] ==> u in txns;
      BucketsAgree(txns[..n], year, id, m);
      YearReport.SelectYearAppend(txns[..n], t, year);
      FinancialReport.SelectAccountYearAppend(txns[..n], t, id, year);
      var yearRows := YearReport.SelectYear(txns[..n], year);
      var accountRows := FinancialReport.SelectAccountYear(txns[..n], id, year);
      var yearAdds := if YearReport.Selected(t, year) then YearReport.Contribution(t, Some(id), m) else 0;
      var accountAdds := if FinancialReport.Selected(t, id, year) && MonthIndex(t.date.value) == m
                         then FinancialReport.Signed(t) else 0;
      if YearReport.Selected(t, year) {
        YearReport.BucketAppend(yearRows, t, Some(id), m);
      } else {
        assert YearReport.SelectYear(txns, year) == yearRows + [] == yearRows;
      }
      if FinancialReport.Selected(t, id, year) {
        FinancialReport.MonthlySumAppend(accountRows, t, m);
      } else {
        assert FinancialReport.SelectAccountYear(txns, id, year) == accountRows + [] == accountRows;
      }
      assert YearReport.Bucket(YearReport.SelectYear(txns, year), Some(id), m)
          == YearReport.Bucket(yearRows, Some(id), m) + yearAdds;
      assert FinancialReport.MonthlySum(FinancialReport.SelectAccountYear(txns, id, year), m)
          == FinancialReport.MonthlySum(accountRows, m) + accountAdds;
      assert yearAdds == accountAdds;
    }
  }

  /** Without transfers (or unknown types), the two handlers report the same
      12 balances for every account. */
  lemma VariantsAgreeWithoutTransfers(year: int, accounts: seq<Account>, txns: seq<Transaction>, i: nat)
    requires DistinctIds(accounts) && i < |accounts|
    requires forall t :: t in txns ==> Transactions.IncomeOrExpense(t.kind)
    ensures YearReport.ReportOf(year, accounts, txns).value.report[i].monthlyBalances
         == FinancialReport.ReportOf(year, accounts, txns).report[i].monthly
  {
    var id := accounts[i].id;
    forall m | 0 <= m < 12 {
      BucketsAgree(txns, year, id, m);
    }
    assert YearReport.Buckets(YearReport.SelectYear(txns, year), Some(id))
        == FinancialReport.MonthlySums(FinancialReport.SelectAccountYear(txns, id, year));
    YearReport.StartIsOwnBalance(accounts, i);
  }

  /** A transfer into account `i` that is also recorded with `account_id`
      set to that account: the yearly report credits the account with the
      amount from the transfer's month on, while the financial report debits
      it by the same amount. */
  lemma VariantsDisagreeOnTransfer(year: int, accounts: seq<Account>, txns: seq<Transaction>, t: Transaction, i: nat, m: nat)
    requires i < |accounts| && m < 12
    requires t.kind == "transfer" && t.date.Some? && t.date.value.year == year && MonthIndex(t.date.value) <= m
    requires t.accountId == Some(accounts[i].id) && t.toAccountId == Some(accounts[i].id) && accounts[i].id != 0
    requires t.fromAccountId != t.toAccountId
    ensures YearReport.BalanceAt(year, accounts, txns + [t], i, m)
         == YearReport.BalanceAt(year, accounts, txns, i, m) + t.amount
    ensures FinancialReport.ReportOf(year, accounts, txns + [t]).report[i].monthly[m]
         == FinancialReport.ReportOf(year, accounts, txns).report[i].monthly[m] - t.amount
  {
    YearReport.TransferIntoAccountCredited(year, accounts, txns, t, i, m);
    FinancialReport.TransferCountsAsDebit(year, accounts, txns, t, i, m);
  }
}
