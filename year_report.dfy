/** The yearly report: every transaction dated in year Y adds its signed
    amount into a 12-slot monthly list for each account it touches, and each
    account's list is then folded into 12 running balances starting from the
    account's starting balance. */
module YearReport {
  import opened Ledger
  import opened Balances

  datatype AccountLine = AccountLine(account: string, start: int, monthlyBalances: seq<int>)

  /** The response body; `totals` is always the empty dictionary. */
  datatype Report = Report(year: int, report: seq<AccountLine>, totals: map<string, int>)

  /** The per-account monthly deltas, keyed by the id a transaction names
      (possibly `None`); a missing key reads as 12 zeros. */
  type MonthlyData = map<Option<int>, seq<int>>

  /** The query's `date BETWEEN 'Y-01-01' AND 'Y-12-31'`, with the bounds read
      as the dates they spell for a four-digit year. */
  predicate InYear(d: Date, year: int)
    ensures InYear(d, year) <==> d.year == year
  {
    DateLeq(Date(year, 1, 1), d) && DateLeq(d, Date(year, 12, 31))
  }

  predicate Selected(t: Transaction, year: int)
  {
    t.date.Some? && InYear(t.date.value, year)
  }

  /** The rows the report's transaction query returns, in table order. */
  function SelectYear(txns: seq<Transaction>, year: int): (r: seq<Transaction>)
    ensures |r| <= |txns|
  {
    if txns == [] then []
    else
      var last := txns[|txns| - 1];
      assert txns == txns[..|txns| - 1] + [last];
      SelectYear(txns[..|txns| - 1], year) + (if Selected(last, year) then [last] else [])
  }

  /** The query returns exactly the rows dated in the year. */
  lemma {:induction false} SelectYearMembers(txns: seq<Transaction>, year: int)
    ensures forall t :: t in SelectYear(txns, year) <==> t in txns && Selected(t, year)
  {
    if txns != [] {
      var n := |txns| - 1;
      SelectYearMembers(txns[..n], year);
      assert txns == txns[..n] + [txns[n]];
    }
  }

  /** What `t` adds to the list keyed `key` in its own month: the branch of
      the loop body for its type. A transfer leg applies only when its id is
      truthy; an unrecognised type adds nothing. */
  function Leg(t: Transaction, key: Option<int>): int
  {
    if t.kind == "income" then
      (if t.accountId == key then t.amount else 0)
    else if t.kind == "expense" then
      (if t.accountId == key then -t.amount else 0)
    else if t.kind == "transfer" then
      (if Truthy(t.fromAccountId) && t.fromAccountId == key then -t.amount else 0)
      + (if Truthy(t.toAccountId) && t.toAccountId == key then t.amount else 0)
    else 0
  }

  function Contribution(t: Transaction, key: Option<int>, m: nat): int
  {
    if t.date.Some? && MonthIndex(t.date.value) == m then Leg(t, key) else 0
  }

  /** The total `ts` adds to month `m` of the list keyed `key`. */
  function Bucket(ts: seq<Transaction>, key: Option<int>, m: nat): int
  {
    if ts == [] then 0
    else Bucket(ts[..|ts| - 1], key, m) + Contribution(ts[|ts| - 1], key, m)
  }

  function Buckets(ts: seq<Transaction>, key: Option<int>): (r: seq<int>)
    ensures |r| == 12
  {
    seq(12, m requires 0 <= m < 12 => Bucket(ts, key, m))
  }

  /** `{account.id: account.starting_balance for account in accounts}`: a
      later row overrides an earlier one with the same id. */
  function StartingBalances(accounts: seq<Account>): (r: map<int, int>)
    ensures forall i :: 0 <= i < |accounts| ==> accounts[i].id in r
    ensures forall id :: id in r ==> exists i :: 0 <= i < |accounts| && accounts[i].id == id
  {
    if accounts == [] then map[]
    else
      var last := accounts[|accounts| - 1];
      var prefix := accounts[..|accounts| - 1];
      assert accounts == prefix + [last];
      StartingBalances(prefix)[last.id := last.startingBalance]
  }

  function LineOf(a: Account, starts: map<int, int>, rows: seq<Transaction>): AccountLine
  {
    var start := if a.id in starts then starts[a.id] else 0;
    AccountLine(a.name, start, Cumulative(start, Buckets(rows, Some(a.id))))
  }

  function Lines(accounts: seq<Account>, rows: seq<Transaction>): (r: seq<AccountLine>)
    ensures |r| == |accounts|
  {
    seq(|accounts|, i requires 0 <= i < |accounts| => LineOf(accounts[i], StartingBalances(accounts), rows))
  }

  /** The report the handler returns for `year` over the given tables. */
  function ReportOf(year: int, accounts: seq<Account>, txns: seq<Transaction>): (r: Result<Report>)
    ensures r.Failure? <==> accounts == []
    ensures r.Failure? ==> r.error == NotFound
    ensures r.Success? ==> r.value.year == year && r.value.totals == map[]
    ensures r.Success? ==> |r.value.report| == |accounts|
    ensures r.Success? ==> forall i :: 0 <= i < |accounts| ==>
      r.value.report[i].account == accounts[i].name && |r.value.report[i].monthlyBalances| == 12
  {
    if accounts == [] then Failure(NotFound)
    else Success(Report(year, Lines(accounts, SelectYear(txns, year)), map[]))
  }

  /** The defaultdict's list for `key`. */
  function Row(data: MonthlyData, key: Option<int>): seq<int>
  {
    if key in data then data[key] else seq(12, _ => 0)
  }

  ghost predicate WellFormed(data: MonthlyData)
  {
    forall key :: key in data ==> |data[key]| == 12
  }

  /** `monthly_data[key][idx] += x`. */
  function Add(data: MonthlyData, key: Option<int>, idx: nat, x: int): (r: MonthlyData)
    requires idx < 12 && WellFormed(data)
    ensures WellFormed(r)
    ensures forall k, m :: 0 <= m < 12 ==>
      Row(r, k)[m] == Row(data, k)[m] + (if k == key && m == idx then x else 0)
  {
    var row := Row(data, key);
    data[key := row[idx := row[idx] + x]]
  }

  /** One pass of the transaction loop: the `if/elif` chain on the type. */
  method ApplyTransaction(monthly: MonthlyData, t: Transaction) returns (next: MonthlyData)
    requires WellFormed(monthly) && t.date.Some?
    ensures WellFormed(next)
    ensures forall k, m :: 0 <= m < 12 ==> Row(next, k)[m] == Row(monthly, k)[m] + Contribution(t, k, m)
  {
    var idx := MonthIndex(t.date.value);
    next := monthly;
    if t.kind == "income" {
      next := Add(next, t.accountId, idx, t.amount);
    } else if t.kind == "expense" {
      next := Add(next, t.accountId, idx, -t.amount);
    } else if t.kind == "transfer" {
      if Truthy(t.fromAccountId) {
        next := Add(next, t.fromAccountId, idx, -t.amount);
      }
      if Truthy(t.toAccountId) {
        next := Add(next, t.toAccountId, idx, t.amount);
      }
    }
  }

  /** The transaction loop: every list ends up holding its key's buckets. */
  method BucketByMonth(rows: seq<Transaction>) returns (monthly: MonthlyData)
    requires forall t :: t in rows ==> t.date.Some?
    ensures WellFormed(monthly)
    ensures forall k :: Row(monthly, k) == Buckets(rows, k)
  {
    monthly := map[];
    for i := 0 to |rows|
      invariant WellFormed(monthly)
      invariant forall k, m :: 0 <= m < 12 ==> Row(monthly, k)[m] == Bucket(rows[..i], k, m)
    {
      assert rows[i] in rows;
      monthly := ApplyTransaction(monthly, rows[i]);
      assert rows[..i + 1][..i] == rows[..i];
    }
    assert rows[..|rows|] == rows;
    forall k ensures Row(monthly, k) == Buckets(rows, k) {
      assert |Row(monthly, k)| == 12;
    }
  }

  /** The per-account loop over the 12 deltas: add, then record the total. */
  method RunningBalances(start: int, deltas: seq<int>) returns (balances: seq<int>)
    ensures balances == Cumulative(start, deltas)
  {
    var runningTotal := start;
    balances := [];
    for m := 0 to |deltas|
      invariant balances + Cumulative(runningTotal, deltas[m..]) == Cumulative(start, deltas)
    {
      CumulativeStep(runningTotal, deltas, m);
      runningTotal := runningTotal + deltas[m];
      balances := balances + [runningTotal];
    }
    assert deltas[|deltas|..] == [];
  }

  /** get_report: read both tables of the store; NotFound without accounts;
      otherwise bucket the year's transactions, then fold each account's
      buckets into running balances. */
  method GetReport(year: int, db: Database) returns (r: Result<Report>)
    ensures r == ReportOf(year, db.accounts, db.transactions)
  {
    var accounts := db.accounts;
    var txns := db.transactions;
    if accounts == [] {
      return Failure(NotFound);
    }
    var rows := SelectYear(txns, year);
    SelectYearMembers(txns, year);
    var monthly := BucketByMonth(rows);
    var starts := StartingBalances(accounts);

    var report: seq<AccountLine> := [];
    for i := 0 to |accounts|
      invariant |report| == i
      invariant forall j :: 0 <= j < i ==> report[j] == LineOf(accounts[j], starts, rows)
    {
      var account := accounts[i];
      var start := if account.id in starts then starts[account.id] else 0;
      var deltas := Row(monthly, Some(account.id));
      assert deltas == Buckets(rows, Some(account.id));
      var balances := RunningBalances(start, deltas);
      report := report + [AccountLine(account.name, start, balances)];
    }
    assert report == Lines(accounts, rows);
    return Success(Report(year, report, map[]));
  }

  // Properties of the report

  /** The balance recorded for month `m` of line `i`. */
  function BalanceAt(year: int, accounts: seq<Account>, txns: seq<Transaction>, i: nat, m: nat): int
    requires i < |accounts| && m < 12
  {
    ReportOf(year, accounts, txns).value.report[i].monthlyBalances[m]
  }

  function BalanceRows(lines: seq<AccountLine>): (r: seq<seq<int>>)
    ensures |r| == |lines|
  {
    seq(|lines|, i requires 0 <= i < |lines| => lines[i].monthlyBalances)
  }

  /** What `t` adds to each account of the table, in table order. */
  function Legs(accounts: seq<Account>, t: Transaction): (r: seq<int>)
    ensures |r| == |accounts|
  {
    seq(|accounts|, i requires 0 <= i < |accounts| => Leg(t, Some(accounts[i].id)))
  }

  /** With distinct ids, the dictionary maps each account's id to its own
      starting balance, so the line's start is the account's. */
  lemma {:induction false} StartIsOwnBalance(accounts: seq<Account>, i: nat)
    requires DistinctIds(accounts) && i < |accounts|
    ensures StartingBalances(accounts)[accounts[i].id] == accounts[i].startingBalance
  {
    var n := |accounts| - 1;
    if i < n {
      assert DistinctIds(accounts[..n]);
      assert accounts[..n][i] == accounts[i];
      StartIsOwnBalance(accounts[..n], i);
      assert accounts[n].id != accounts[i].id;
    }
  }

  lemma BucketAppend(ts: seq<Transaction>, t: Transaction, key: Option<int>, m: nat)
    ensures Bucket(ts + [t], key, m) == Bucket(ts, key, m) + Contribution(t, key, m)
  {
    assert (ts + [t])[..|ts|] == ts;
  }

  lemma SelectYearAppend(txns: seq<Transaction>, t: Transaction, year: int)
    ensures SelectYear(txns + [t], year) == SelectYear(txns, year) + (if Selected(t, year) then [t] else [])
  {
    assert (txns + [t])[..|txns|] == txns;
  }

  lemma {:induction false} SelectYearEmpty(txns: seq<Transaction>, year: int)
    requires forall t :: t in txns ==> !Selected(t, year)
    ensures SelectYear(txns, year) == []
  {
    if txns != [] {
      var n := |txns| - 1;
      assert txns[n] in txns;
      assert forall t :: t in txns[..n] ==> t in txns;
      SelectYearEmpty(txns[..n], year);
    }
  }

  /** The starting-balance dictionary reads only ids and balances. */
  lemma {:induction false} StartingBalancesIgnoreNames(a: seq<Account>, b: seq<Account>)
    requires SameIdsAndBalances(a, b)
    ensures StartingBalances(a) == StartingBalances(b)
  {
    if a != [] {
      var n := |a| - 1;
      assert SameIdsAndBalances(a[..n], b[..n]);
      StartingBalancesIgnoreNames(a[..n], b[..n]);
    }
  }

  /** The query keeps the order of the table, so it distributes over
      concatenation. */
  lemma {:induction false} SelectYearConcat(a: seq<Transaction>, b: seq<Transaction>, year: int)
    ensures SelectYear(a + b, year) == SelectYear(a, year) + SelectYear(b, year)
  {
    if b == [] {
      assert a + b == a;
    } else {
      var n := |b| - 1;
      calc {
        SelectYear(a + b, year);
        { assert a + b == (a + b[..n]) + [b[n]]; }
        SelectYear((a + b[..n]) + [b[n]], year);
        { SelectYearConcat(a, b[..n], year); SelectYearConcatStep(a, b[..n], b[n], year); }
        SelectYear(a, year) + SelectYear(b[..n] + [b[n]], year);
        { assert b[..n] + [b[n]] == b; }
        SelectYear(a, year) + SelectYear(b, year);
      }
    }
  }

  lemma SelectYearConcatStep(a: seq<Transaction>, b: seq<Transaction>, x: Transaction, year: int)
    requires SelectYear(a + b, year) == SelectYear(a, year) + SelectYear(b, year)
    ensures SelectYear((a + b) + [x], year) == SelectYear(a, year) + SelectYear(b + [x], year)
  {
    var sa, sb := SelectYear(a, year), SelectYear(b, year);
    SelectYearAppend(a + b, x, year);
    SelectYearAppend(b, x, year);
    if Selected(x, year) {
      assert sa + (sb + [x]) == (sa + sb) + [x];
    } else {
      assert sa + (sb + []) == (sa + sb) + [];
    }
  }

  /** The query over a table with row `t` between `a` and `b`, and over the
      same table without it. */
  lemma SelectYearAround(a: seq<Transaction>, t: Transaction, b: seq<Transaction>, year: int)
    ensures SelectYear(a + [t] + b, year)
         == SelectYear(a, year) + (if Selected(t, year) then [t] else []) + SelectYear(b, year)
    ensures SelectYear(a + b, year) == SelectYear(a, year) + SelectYear(b, year)
  {
    SelectYearConcat(a + [t], b, year);
    SelectYearConcat(a, b, year);
    SelectYearAppend(a, t, year);
  }

  /** Taking one row out of the middle of a list lowers each bucket by
      exactly what that row contributed. */
  lemma {:induction false} BucketRemove(a: seq<Transaction>, t: Transaction, b: seq<Transaction>, key: Option<int>, m: nat)
    ensures Bucket(a + [t] + b, key, m) == Bucket(a + b, key, m) + Contribution(t, key, m)
  {
    if b == [] {
      assert a + [t] + b == a + [t] && a + b == a;
      BucketAppend(a, t, key, m);
    } else {
      var n := |b| - 1;
      BucketRemove(a, t, b[..n], key, m);
      assert a + [t] + b == (a + [t] + b[..n]) + [b[n]];
      assert a + b == (a + b[..n]) + [b[n]];
      BucketAppend(a + [t] + b[..n], b[n], key, m);
      BucketAppend(a + b[..n], b[n], key, m);
    }
  }

  /** Entry `m` of every line is the account's starting balance plus the
      account's buckets for months 0..m. */
  lemma BalanceIsStartPlusBuckets(year: int, accounts: seq<Account>, txns: seq<Transaction>, i: nat, m: nat)
    requires DistinctIds(accounts) && i < |accounts| && m < 12
    ensures ReportOf(year, accounts, txns).value.report[i].start == accounts[i].startingBalance
    ensures BalanceAt(year, accounts, txns, i, m)
         == accounts[i].startingBalance + Sum(Buckets(SelectYear(txns, year), Some(accounts[i].id))[..m + 1])
  {
    StartIsOwnBalance(accounts, i);
    CumulativeIsPrefixSum(accounts[i].startingBalance, Buckets(SelectYear(txns, year), Some(accounts[i].id)), m);
  }

  /** With no transaction dated in the year, all 12 balances equal the start. */
  lemma FlatWithoutTransactions(year: int, accounts: seq<Account>, txns: seq<Transaction>, i: nat)
    requires DistinctIds(accounts) && i < |accounts|
    requires forall t :: t in txns ==> !Selected(t, year)
    ensures forall m :: 0 <= m < 12 ==> BalanceAt(year, accounts, txns, i, m) == accounts[i].startingBalance
  {
    var rows := SelectYear(txns, year);
    SelectYearEmpty(txns, year);
    StartIsOwnBalance(accounts, i);
    CumulativeOfZeros(accounts[i].startingBalance, Buckets(rows, Some(accounts[i].id)));
  }

  /** `starting_balances.get(account.id, 0)` for line `i`. */
  function LineStart(accounts: seq<Account>, i: nat): int
    requires i < |accounts|
  {
    var starts := StartingBalances(accounts);
    if accounts[i].id in starts then starts[accounts[i].id] else 0
  }

  /** Line `i` of the report is the fold of that account's buckets. */
  lemma LineFromBuckets(year: int, accounts: seq<Account>, txns: seq<Transaction>, i: nat)
    requires i < |accounts|
    ensures ReportOf(year, accounts, txns).value.report[i].monthlyBalances
         == Cumulative(LineStart(accounts, i), Buckets(SelectYear(txns, year), Some(accounts[i].id)))
  {
  }

  /** Over already-selected rows: one more row `t` raises the running
      balance of month `m` by its leg when its month is not after `m`. */
  lemma InsertedRowShift(sa: seq<Transaction>, t: Transaction, sb: seq<Transaction>, key: Option<int>, start: int, m: nat)
    requires t.date.Some? && m < 12
    ensures Cumulative(start, Buckets(sa + [t] + sb, key))[m]
         == Cumulative(start, Buckets(sa + sb, key))[m]
            + (if MonthIndex(t.date.value) <= m then Leg(t, key) else 0)
  {
    var before := Buckets(sa + sb, key);
    var after := Buckets(sa + [t] + sb, key);
    var month := MonthIndex(t.date.value);
    forall j | 0 <= j < 12 ensures after[j] == before[month := before[month] + Leg(t, key)][j] {
      BucketRemove(sa, t, sb, key, j);
    }
    assert after == before[month := before[month] + Leg(t, key)];
    CumulativeBump(start, before, month, Leg(t, key), m);
  }

  /** Appending one transaction moves each line's balances from its month on
      by what it adds to that account, and changes nothing if it is not dated
      in the year. */
  lemma AppendShiftsBalances(year: int, accounts: seq<Account>, txns: seq<Transaction>, t: Transaction, i: nat, m: nat)
    requires i < |accounts| && m < 12
    ensures BalanceAt(year, accounts, txns + [t], i, m)
         == BalanceAt(year, accounts, txns, i, m)
            + (if Selected(t, year) && MonthIndex(t.date.value) <= m then Leg(t, Some(accounts[i].id)) else 0)
  {
    var rows := SelectYear(txns, year);
    SelectYearAppend(txns, t, year);
    LineFromBuckets(year, accounts, txns, i);
    LineFromBuckets(year, accounts, txns + [t], i);
    if Selected(t, year) {
      InsertedRowShift(rows, t, [], Some(accounts[i].id), LineStart(accounts, i), m);
      assert rows + [t] + [] == rows + [t] && rows + [] == rows;
    } else {
      assert rows + [] == rows;
    }
  }

  /** A transaction that adds nothing to any account of the table leaves the
      whole report unchanged: buckets of other ids never appear. */
  lemma NeutralTransactionIgnored(year: int, accounts: seq<Account>, txns: seq<Transaction>, t: Transaction)
    requires Selected(t, year) ==> forall i :: 0 <= i < |accounts| ==> Leg(t, Some(accounts[i].id)) == 0
    ensures ReportOf(year, accounts, txns + [t]) == ReportOf(year, accounts, txns)
  {
    var rows := SelectYear(txns, year);
    SelectYearAppend(txns, t, year);
    if Selected(t, year) {
      forall i | 0 <= i < |accounts|
        ensures Buckets(rows + [t], Some(accounts[i].id)) == Buckets(rows, Some(accounts[i].id))
      {
        forall j | 0 <= j < 12 {
          BucketAppend(rows, t, Some(accounts[i].id), j);
        }
      }
      assert Lines(accounts, rows + [t]) == Lines(accounts, rows);
    } else {
      assert SelectYear(txns + [t], year) == rows;
    }
  }

  /** Only transactions with a date inside the year contribute. */
  lemma OutOfYearIgnored(year: int, accounts: seq<Account>, txns: seq<Transaction>, t: Transaction)
    requires t.date.None? || t.date.value.year != year
    ensures ReportOf(year, accounts, txns + [t]) == ReportOf(year, accounts, txns)
  {
    NeutralTransactionIgnored(year, accounts, txns, t);
  }

  /** A type other than income, expense and transfer contributes nothing. */
  lemma UnrecognisedTypeIgnored(year: int, accounts: seq<Account>, txns: seq<Transaction>, t: Transaction)
    requires t.kind != "income" && t.kind != "expense" && t.kind != "transfer"
    ensures ReportOf(year, accounts, txns + [t]) == ReportOf(year, accounts, txns)
  {
    NeutralTransactionIgnored(year, accounts, txns, t);
  }

  /** A transfer from an account to itself nets zero. */
  lemma SelfTransferNetsZero(year: int, accounts: seq<Account>, txns: seq<Transaction>, t: Transaction)
    requires t.kind == "transfer" && t.fromAccountId == t.toAccountId
    ensures ReportOf(year, accounts, txns + [t]) == ReportOf(year, accounts, txns)
  {
    NeutralTransactionIgnored(year, accounts, txns, t);
  }

  /** A transaction naming only ids that are not accounts of the table (or
      none at all) changes no line. */
  lemma UnknownAccountsIgnored(year: int, accounts: seq<Account>, txns: seq<Transaction>, t: Transaction)
    requires forall i :: 0 <= i < |accounts| ==>
      && t.accountId != Some(accounts[i].id)
      && t.fromAccountId != Some(accounts[i].id)
      && t.toAccountId != Some(accounts[i].id)
    ensures ReportOf(year, accounts, txns + [t]) == ReportOf(year, accounts, txns)
  {
    NeutralTransactionIgnored(year, accounts, txns, t);
  }

  /** Over accounts with distinct ids, the legs of a transfer add up to
      `-amount` for the source and `+amount` for the destination, counting
      each only when it is an account of the table. */
  lemma {:induction false} TransferLegsSum(accounts: seq<Account>, t: Transaction)
    requires DistinctIds(accounts)
    requires t.kind == "transfer" && Truthy(t.fromAccountId) && Truthy(t.toAccountId)
    ensures Sum(Legs(accounts, t))
         == (if HasAccount(accounts, t.fromAccountId.value) then -t.amount else 0)
          + (if HasAccount(accounts, t.toAccountId.value) then t.amount else 0)
  {
    if accounts != [] {
      var n := |accounts| - 1;
      var prefix := accounts[..n];
      assert DistinctIds(prefix);
      TransferLegsSum(prefix, t);
      assert Legs(accounts, t)[..n] == Legs(prefix, t);
      forall id | id != accounts[n].id
        ensures HasAccount(accounts, id) == HasAccount(prefix, id)
      {
        if HasAccount(accounts, id) {
          var j :| 0 <= j < |accounts| && accounts[j].id == id;
          assert prefix[j].id == id;
        }
      }
      forall j | 0 <= j < n ensures prefix[j].id != accounts[n].id {
        assert prefix[j] == accounts[j];
      }
    }
  }

  /** A transfer into an account of the table, from some other account,
      raises that account's balances by its amount from its month on. */
  lemma TransferIntoAccountCredited(year: int, accounts: seq<Account>, txns: seq<Transaction>, t: Transaction, i: nat, m: nat)
    requires i < |accounts| && m < 12
    requires t.kind == "transfer" && t.date.Some? && t.date.value.year == year && MonthIndex(t.date.value) <= m
    requires t.toAccountId == Some(accounts[i].id) && accounts[i].id != 0
    requires t.fromAccountId != t.toAccountId
    ensures BalanceAt(year, accounts, txns + [t], i, m)
         == BalanceAt(year, accounts, txns, i, m) + t.amount
  {
    assert Selected(t, year);
    AppendShiftsBalances(year, accounts, txns, t, i, m);
  }

  /** What appending `t` adds to month `m` of each line, in table order. */
  function Shifts(year: int, accounts: seq<Account>, t: Transaction, m: nat): (r: seq<int>)
    ensures |r| == |accounts|
  {
    seq(|accounts|, i requires 0 <= i < |accounts| =>
      if Selected(t, year) && MonthIndex(t.date.value) <= m then Leg(t, Some(accounts[i].id)) else 0)
  }

  /** Appending `t` moves the sum over lines of month `m` by the sum of what
      it adds to each line. */
  lemma AppendShiftsColumn(year: int, accounts: seq<Account>, txns: seq<Transaction>, t: Transaction, m: nat)
    requires accounts != [] && m < 12
    ensures ColumnTotal(BalanceRows(ReportOf(year, accounts, txns + [t]).value.report), m)
         == ColumnTotal(BalanceRows(ReportOf(year, accounts, txns).value.report), m) + Sum(Shifts(year, accounts, t, m))
  {
    var before := BalanceRows(ReportOf(year, accounts, txns).value.report);
    var after := BalanceRows(ReportOf(year, accounts, txns + [t]).value.report);
    var moved := Shifts(year, accounts, t, m);
    forall i | 0 <= i < |accounts| ensures after[i][m] == before[i][m] + moved[i] {
      AppendShiftsBalances(year, accounts, txns, t, i, m);
    }
    ColumnTotalShift(before, after, moved, m);
  }

  /** A transfer between two accounts of the table leaves the sum of all
      lines' balances unchanged in every month. */
  lemma TransferKeepsTotalBalance(year: int, accounts: seq<Account>, txns: seq<Transaction>, t: Transaction, m: nat)
    requires DistinctIds(accounts) && accounts != [] && m < 12
    requires t.kind == "transfer" && Truthy(t.fromAccountId) && Truthy(t.toAccountId)
    requires HasAccount(accounts, t.fromAccountId.value) && HasAccount(accounts, t.toAccountId.value)
    ensures ColumnTotal(BalanceRows(ReportOf(year, accounts, txns + [t]).value.report), m)
         == ColumnTotal(BalanceRows(ReportOf(year, accounts, txns).value.report), m)
  {
    AppendShiftsColumn(year, accounts, txns, t, m);
    TransferShiftsCancel(year, accounts, t, m);
  }

  /** What such a transfer adds to the lines of one month sums to zero. */
  lemma TransferShiftsCancel(year: int, accounts: seq<Account>, t: Transaction, m: nat)
    requires DistinctIds(accounts) && m < 12
    requires t.kind == "transfer" && Truthy(t.fromAccountId) && Truthy(t.toAccountId)
    requires HasAccount(accounts, t.fromAccountId.value) && HasAccount(accounts, t.toAccountId.value)
    ensures Sum(Shifts(year, accounts, t, m)) == 0
  {
    var moved := Shifts(year, accounts, t, m);
    if Selected(t, year) && MonthIndex(t.date.value) <= m {
      assert moved == Legs(accounts, t);
      TransferLegsSum(accounts, t);
    } else {
      SumOfZeros(moved);
    }
  }

  lemma {:induction false} SumOfZeros(ds: seq<int>)
    requires forall i :: 0 <= i < |ds| ==> ds[i] == 0
    ensures Sum(ds) == 0
  {
    if ds != [] {
      SumOfZeros(ds[..|ds| - 1]);
    }
  }
}
