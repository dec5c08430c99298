/** The per-account financial report: for each account, the transactions whose
    `account_id` is that account and whose date lies in year Y are summed per
    month (income as credit, every other type as debit) and folded into 12
    running balances; across accounts the running balances and the starting
    balances are totalled. */
module FinancialReport {
  import opened Ledger
  import opened Balances

  datatype AccountSummary = AccountSummary(accountName: string, start: int, monthly: seq<int>)
  datatype Totals = Totals(start: int, monthly: seq<int>)
  datatype Report = Report(year: int, report: seq<AccountSummary>, totals: Totals)

  predicate Selected(t: Transaction, id: int, year: int)
  {
    t.accountId == Some(id) && t.date.Some? && t.date.value.year == year
  }

  /** The per-account query: `account_id == id` and `extract(year, date) == Y`
      (a null id or date never matches), in table order. */
  function SelectAccountYear(txns: seq<Transaction>, id: int, year: int): (r: seq<Transaction>)
    ensures |r| <= |txns|
  {
    if txns == [] then []
    else
      var last := txns[|txns| - 1];
      assert txns == txns[..|txns| - 1] + [last];
      SelectAccountYear(txns[..|txns| - 1], id, year) + (if Selected(last, id, year) then [last] else [])
  }

  /** The query returns exactly that account's rows dated in the year. */
  lemma {:induction false} SelectAccountYearMembers(txns: seq<Transaction>, id: int, year: int)
    ensures forall t :: t in SelectAccountYear(txns, id, year) <==> t in txns && Selected(t, id, year)
  {
    if txns != [] {
      var n := |txns| - 1;
      SelectAccountYearMembers(txns[..n], id, year);
      assert txns == txns[..n] + [txns[n]];
    }
  }

  /** `t.amount if t.type == "income" else -t.amount`. */
  function Signed(t: Transaction): int
  {
    if t.kind == "income" then t.amount else -t.amount
  }

  /** What `ts` adds to month `m`. */
  function MonthlySum(ts: seq<Transaction>, m: nat): int
  {
    if ts == [] then 0
    else
      var t := ts[|ts| - 1];
      MonthlySum(ts[..|ts| - 1], m) + (if t.date.Some? && MonthIndex(t.date.value) == m then Signed(t) else 0)
  }

  function MonthlySums(ts: seq<Transaction>): (r: seq<int>)
    ensures |r| == 12
  {
    seq(12, m requires 0 <= m < 12 => MonthlySum(ts, m))
  }

  function SummaryOf(a: Account, txns: seq<Transaction>, year: int): AccountSummary
  {
    AccountSummary(a.name, a.startingBalance,
      Cumulative(a.startingBalance, MonthlySums(SelectAccountYear(txns, a.id, year))))
  }

  function Summaries(accounts: seq<Account>, txns: seq<Transaction>, year: int): (r: seq<AccountSummary>)
    ensures |r| == |accounts|
  {
    seq(|accounts|, i requires 0 <= i < |accounts| => SummaryOf(accounts[i], txns, year))
  }

  function Columns(lines: seq<AccountSummary>): (r: seq<seq<int>>)
    ensures |r| == |lines|
  {
    seq(|lines|, i requires 0 <= i < |lines| => lines[i].monthly)
  }

  function StartTotal(accounts: seq<Account>): int
  {
    if accounts == [] then 0
    else StartTotal(accounts[..|accounts| - 1]) + accounts[|accounts| - 1].startingBalance
  }

  /** The report the handler returns for `year` over the given tables. */
  function ReportOf(year: int, accounts: seq<Account>, txns: seq<Transaction>): (r: Report)
    ensures r.year == year && |r.report| == |accounts| && |r.totals.monthly| == 12
    ensures forall i :: 0 <= i < |accounts| ==>
      r.report[i].accountName == accounts[i].name
      && r.report[i].start == accounts[i].startingBalance
      && |r.report[i].monthly| == 12
  {
    var lines := Summaries(accounts, txns, year);
    Report(year, lines, Totals(StartTotal(accounts), seq(12, m requires 0 <= m < 12 => ColumnTotal(Columns(lines), m))))
  }

  /** The loop over one account's rows: `monthly_sums[month_index] += amt`. */
  method SumByMonth(ts: seq<Transaction>) returns (sums: array<int>)
    requires forall t :: t in ts ==> t.date.Some?
    ensures fresh(sums) && sums[..] == MonthlySums(ts)
  {
    sums := new int[12](_ => 0);
    for j := 0 to |ts|
      invariant sums.Length == 12
      invariant forall m :: 0 <= m < 12 ==> sums[m] == MonthlySum(ts[..j], m)
    {
      var t := ts[j];
      assert t in ts;
      assert ts[..j + 1][..j] == ts[..j];
      var monthIndex := MonthIndex(t.date.value);
      var amt := if t.kind == "income" then t.amount else -t.amount;
      sums[monthIndex] := sums[monthIndex] + amt;
    }
    assert ts[..|ts|] == ts;
  }

  /** The 12-step loop: record each running total and add it into the
      cross-account monthly totals. */
  method FoldMonths(start: int, monthlySums: array<int>, totalsMonthly: array<int>) returns (cumulative: seq<int>)
    requires monthlySums.Length == 12 && totalsMonthly.Length == 12 && monthlySums != totalsMonthly
    modifies totalsMonthly
    ensures cumulative == Cumulative(start, monthlySums[..])
    ensures forall k :: 0 <= k < 12 ==> totalsMonthly[k] == old(totalsMonthly[k]) + cumulative[k]
  {
    cumulative := [];
    var runningTotal := start;
    for m := 0 to 12
      invariant cumulative + Cumulative(runningTotal, monthlySums[m..]) == Cumulative(start, monthlySums[..])
      invariant forall k :: 0 <= k < 12 ==>
        totalsMonthly[k] == old(totalsMonthly[k]) + (if k < m then cumulative[k] else 0)
    {
      CumulativeStep(runningTotal, monthlySums[..], m);
      assert monthlySums[m..][0] == monthlySums[m];
      runningTotal := runningTotal + monthlySums[m];
      cumulative := cumulative + [runningTotal];
      totalsMonthly[m] := totalsMonthly[m] + runningTotal;
    }
    assert monthlySums[12..] == [];
  }

  /** The body of the per-account loop: query, sum by month, fold, and add
      the running balances into the monthly totals. */
  method SummarizeAccount(account: Account, txns: seq<Transaction>, year: int, totalsMonthly: array<int>)
    returns (line: AccountSummary)
    requires totalsMonthly.Length == 12
    modifies totalsMonthly
    ensures line == SummaryOf(account, txns, year)
    ensures forall k :: 0 <= k < 12 ==> totalsMonthly[k] == old(totalsMonthly[k]) + line.monthly[k]
  {
    var transactions := SelectAccountYear(txns, account.id, year);
    SelectAccountYearMembers(txns, account.id, year);
    var monthlySums := SumByMonth(transactions);
    var cumulative := FoldMonths(account.startingBalance, monthlySums, totalsMonthly);
    line := AccountSummary(account.name, account.startingBalance, cumulative);
  }

  /** One more summary adds its running balances into every monthly total. */
  lemma ColumnsAppend(lines: seq<AccountSummary>, line: AccountSummary)
    requires |line.monthly| == 12
    ensures forall m :: 0 <= m < 12 ==>
      ColumnTotal(Columns(lines + [line]), m) == ColumnTotal(Columns(lines), m) + line.monthly[m]
  {
    assert Columns(lines + [line]) == Columns(lines) + [line.monthly];
    forall m | 0 <= m < 12 ensures ColumnTotal(Columns(lines + [line]), m) == ColumnTotal(Columns(lines), m) + line.monthly[m] {
      ColumnTotalAppend(Columns(lines), line.monthly, m);
    }
  }

  /** get_financial_report over the tables of `db`. `storeFails` says whether
      the store raises while the handler queries it; the handler turns that
      exception into a 500. */
  method GetFinancialReport(year: int, db: Database, storeFails: bool) returns (r: Result<Report>)
    ensures storeFails ==> r == Failure(Internal)
    ensures !storeFails ==> r == Success(ReportOf(year, db.accounts, db.transactions))
  {
    if storeFails {
      return Failure(Internal);
    }
    var accounts := db.accounts;
    var txns := db.transactions;

    var report: seq<AccountSummary> := [];
    var totalsStart := 0;
    var totalsMonthly := new int[12](_ => 0);

    for i := 0 to |accounts|
      invariant |report| == i
      invariant forall j :: 0 <= j < i ==> report[j] == SummaryOf(accounts[j], txns, year)
      invariant totalsStart == StartTotal(accounts[..i])
      invariant forall m :: 0 <= m < 12 ==> totalsMonthly[m] == ColumnTotal(Columns(report), m)
    {
      var account := accounts[i];
      var line := SummarizeAccount(account, txns, year, totalsMonthly);
      assert accounts[..i + 1][..i] == accounts[..i];
      totalsStart := totalsStart + account.startingBalance;
      ColumnsAppend(report, line);
      report := report + [line];
    }
    assert accounts[..|accounts|] == accounts;
    assert report == Summaries(accounts, txns, year);
    assert totalsMonthly[..] == seq(12, m requires 0 <= m < 12 => ColumnTotal(Columns(report), m));
    return Success(Report(year, report, Totals(totalsStart, totalsMonthly[..])));
  }

  // Properties of the report

  function Selection(accounts: seq<Account>, txns: seq<Transaction>, year: int, i: nat): seq<Transaction>
    requires i < |accounts|
  {
    SelectAccountYear(txns, accounts[i].id, year)
  }

  /** Sum over accounts of the deltas each has seen in months 0..m. */
  function DeltaTotal(accounts: seq<Account>, txns: seq<Transaction>, year: int, m: nat): int
    requires m < 12
  {
    if accounts == [] then 0
    else
      var n := |accounts| - 1;
      DeltaTotal(accounts[..n], txns, year, m) + Sum(MonthlySums(SelectAccountYear(txns, accounts[n].id, year))[..m + 1])
  }

  /** With no accounts the report is empty, not an error: a zero start total
      and 12 zero monthly totals. */
  lemma EmptyTableReport(year: int, txns: seq<Transaction>)
    ensures ReportOf(year, [], txns) == Report(year, [], Totals(0, seq(12, _ => 0)))
  {
  }

  /** Entry `m` of each account's list is its starting balance plus its
      monthly sums for months 0..m. */
  lemma SummaryIsPrefixSum(year: int, accounts: seq<Account>, txns: seq<Transaction>, i: nat, m: nat)
    requires i < |accounts| && m < 12
    ensures ReportOf(year, accounts, txns).report[i].monthly[m]
         == accounts[i].startingBalance + Sum(MonthlySums(Selection(accounts, txns, year, i))[..m + 1])
  {
    CumulativeIsPrefixSum(accounts[i].startingBalance, MonthlySums(Selection(accounts, txns, year, i)), m);
  }

  /** The monthly total is a sum of running balances, not of deltas: it is the
      start total plus every account's deltas up to that month. */
  lemma {:induction false} TotalsCompoundStarts(year: int, accounts: seq<Account>, txns: seq<Transaction>, m: nat)
    requires m < 12
    ensures ReportOf(year, accounts, txns).totals.monthly[m]
         == ReportOf(year, accounts, txns).totals.start + DeltaTotal(accounts, txns, year, m)
  {
    var lines := Summaries(accounts, txns, year);
    assert ReportOf(year, accounts, txns).totals.monthly[m] == ColumnTotal(Columns(lines), m);
    ColumnsCompoundStarts(year, accounts, txns, m);
  }

  lemma {:induction false} ColumnsCompoundStarts(year: int, accounts: seq<Account>, txns: seq<Transaction>, m: nat)
    requires m < 12
    ensures ColumnTotal(Columns(Summaries(accounts, txns, year)), m)
         == StartTotal(accounts) + DeltaTotal(accounts, txns, year, m)
  {
    if accounts != [] {
      var n := |accounts| - 1;
      var cols := Columns(Summaries(accounts, txns, year));
      ColumnsCompoundStarts(year, accounts[..n], txns, m);
      assert cols[..n] == Columns(Summaries(accounts[..n], txns, year));
      CumulativeIsPrefixSum(accounts[n].startingBalance, MonthlySums(SelectAccountYear(txns, accounts[n].id, year)), m);
    }
  }

  lemma SelectAccountYearAppend(txns: seq<Transaction>, t: Transaction, id: int, year: int)
    ensures SelectAccountYear(txns + [t], id, year)
         == SelectAccountYear(txns, id, year) + (if Selected(t, id, year) then [t] else [])
  {
    assert (txns + [t])[..|txns|] == txns;
  }

  lemma MonthlySumAppend(ts: seq<Transaction>, t: Transaction, m: nat)
    ensures MonthlySum(ts + [t], m)
         == MonthlySum(ts, m) + (if t.date.Some? && MonthIndex(t.date.value) == m then Signed(t) else 0)
  {
    assert (ts + [t])[..|ts|] == ts;
  }

  /** The start total reads only starting balances. */
  lemma {:induction false} StartTotalIgnoresNames(a: seq<Account>, b: seq<Account>)
    requires SameIdsAndBalances(a, b)
    ensures StartTotal(a) == StartTotal(b)
  {
    if a != [] {
      var n := |a| - 1;
      assert SameIdsAndBalances(a[..n], b[..n]);
      StartTotalIgnoresNames(a[..n], b[..n]);
    }
  }

  lemma {:induction false} SelectAccountYearConcat(a: seq<Transaction>, b: seq<Transaction>, id: int, year: int)
    ensures SelectAccountYear(a + b, id, year) == SelectAccountYear(a, id, year) + SelectAccountYear(b, id, year)
  {
    if b == [] {
      assert a + b == a;
    } else {
      var n := |b| - 1;
      calc {
        SelectAccountYear(a + b, id, year);
        { assert a + b == (a + b[..n]) + [b[n]]; }
        SelectAccountYear((a + b[..n]) + [b[n]], id, year);
        { SelectAccountYearConcat(a, b[..n], id, year); SelectAccountYearConcatStep(a, b[..n], b[n], id, year); }
        SelectAccountYear(a, id, year) + SelectAccountYear(b[..n] + [b[n]], id, year);
        { assert b[..n] + [b[n]] == b; }
        SelectAccountYear(a, id, year) + SelectAccountYear(b, id, year);
      }
    }
  }

  lemma SelectAccountYearConcatStep(a: seq<Transaction>, b: seq<Transaction>, x: Transaction, id: int, year: int)
    requires SelectAccountYear(a + b, id, year) == SelectAccountYear(a, id, year) + SelectAccountYear(b, id, year)
    ensures SelectAccountYear((a + b) + [x], id, year) == SelectAccountYear(a, id, year) + SelectAccountYear(b + [x], id, year)
  {
    var sa, sb := SelectAccountYear(a, id, year), SelectAccountYear(b, id, year);
    SelectAccountYearAppend(a + b, x, id, year);
    SelectAccountYearAppend(b, x, id, year);
    if Selected(x, id, year) {
      assert sa + (sb + [x]) == (sa + sb) + [x];
    } else {
      assert sa + (sb + []) == (sa + sb) + [];
    }
  }

  /** The per-account query over a table with row `t` between `a` and `b`,
      and over the same table without it. */
  lemma SelectAccountYearAround(a: seq<Transaction>, t: Transaction, b: seq<Transaction>, id: int, year: int)
    ensures SelectAccountYear(a + [t] + b, id, year)
         == SelectAccountYear(a, id, year) + (if Selected(t, id, year) then [t] else []) + SelectAccountYear(b, id, year)
    ensures SelectAccountYear(a + b, id, year) == SelectAccountYear(a, id, year) + SelectAccountYear(b, id, year)
  {
    SelectAccountYearConcat(a + [t], b, id, year);
    SelectAccountYearConcat(a, b, id, year);
    SelectAccountYearAppend(a, t, id, year);
  }

  /** Taking one row out of the middle of a list lowers its month's sum by
      exactly its signed amount. */
  lemma {:induction false} MonthlySumRemove(a: seq<Transaction>, t: Transaction, b: seq<Transaction>, m: nat)
    ensures MonthlySum(a + [t] + b, m)
         == MonthlySum(a + b, m) + (if t.date.Some? && MonthIndex(t.date.value) == m then Signed(t) else 0)
  {
    if b == [] {
      assert a + [t] + b == a + [t] && a + b == a;
      MonthlySumAppend(a, t, m);
    } else {
      var n := |b| - 1;
      MonthlySumRemove(a, t, b[..n], m);
      assert a + [t] + b == (a + [t] + b[..n]) + [b[n]];
      assert a + b == (a + b[..n]) + [b[n]];
      MonthlySumAppend(a + [t] + b[..n], b[n], m);
      MonthlySumAppend(a + b[..n], b[n], m);
    }
  }

  /** Entry `i` of the report is the fold of that account's monthly sums. */
  lemma SummaryFromSums(year: int, accounts: seq<Account>, txns: seq<Transaction>, i: nat)
    requires i < |accounts|
    ensures ReportOf(year, accounts, txns).report[i].monthly
         == Cumulative(accounts[i].startingBalance, MonthlySums(SelectAccountYear(txns, accounts[i].id, year)))
  {
  }

  /** Over already-selected rows: one more row `t` raises the running
      balance of month `m` by its signed amount when its month is not after
      `m`. */
  lemma InsertedRowShift(sa: seq<Transaction>, t: Transaction, sb: seq<Transaction>, start: int, m: nat)
    requires t.date.Some? && m < 12
    ensures Cumulative(start, MonthlySums(sa + [t] + sb))[m]
         == Cumulative(start, MonthlySums(sa + sb))[m]
            + (if MonthIndex(t.date.value) <= m then Signed(t) else 0)
  {
    var before := MonthlySums(sa + sb);
    var after := MonthlySums(sa + [t] + sb);
    var month := MonthIndex(t.date.value);
    forall j | 0 <= j < 12 ensures after[j] == before[month := before[month] + Signed(t)][j] {
      MonthlySumRemove(sa, t, sb, j);
    }
    assert after == before[month := before[month] + Signed(t)];
    CumulativeBump(start, before, month, Signed(t), m);
  }

  /** Appending one transaction moves an account's list from its month on by
      its signed amount when it is that account's and dated in the year. */
  lemma AppendShiftsSummary(year: int, accounts: seq<Account>, txns: seq<Transaction>, t: Transaction, i: nat, m: nat)
    requires i < |accounts| && m < 12
    ensures ReportOf(year, accounts, txns + [t]).report[i].monthly[m]
         == ReportOf(year, accounts, txns).report[i].monthly[m]
            + (if Selected(t, accounts[i].id, year) && MonthIndex(t.date.value) <= m then Signed(t) else 0)
  {
    var id := accounts[i].id;
    var rows := SelectAccountYear(txns, id, year);
    var start := accounts[i].startingBalance;
    SelectAccountYearAppend(txns, t, id, year);
    SummaryFromSums(year, accounts, txns, i);
    SummaryFromSums(year, accounts, txns + [t], i);
    if Selected(t, id, year) {
      assert SelectAccountYear(txns + [t], id, year) == rows + [t];
      AppendedRowShift(rows, t, start, m);
    } else {
      assert SelectAccountYear(txns + [t], id, year) == rows;
    }
  }

  /** Over already-selected rows: one more last row raises the running
      balance of month `m` by its signed amount when its month is not after
      `m`. */
  lemma AppendedRowShift(rows: seq<Transaction>, t: Transaction, start: int, m: nat)
    requires t.date.Some? && m < 12
    ensures Cumulative(start, MonthlySums(rows + [t]))[m]
         == Cumulative(start, MonthlySums(rows))[m] + (if MonthIndex(t.date.value) <= m then Signed(t) else 0)
  {
    InsertedRowShift(rows, t, [], start, m);
    assert rows + [t] + [] == rows + [t] && rows + [] == rows;
  }

  /** Every type other than income is a debit: a transfer recorded against an
      account lowers its balances from its month on, whichever side it is. */
  lemma TransferCountsAsDebit(year: int, accounts: seq<Account>, txns: seq<Transaction>, t: Transaction, i: nat, m: nat)
    requires i < |accounts| && m < 12
    requires t.kind == "transfer" && Selected(t, accounts[i].id, year) && MonthIndex(t.date.value) <= m
    ensures ReportOf(year, accounts, txns + [t]).report[i].monthly[m]
         == ReportOf(year, accounts, txns).report[i].monthly[m] - t.amount
  {
    AppendShiftsSummary(year, accounts, txns, t, i, m);
  }
}
