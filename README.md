# MyFinanceApp ledger core in Dafny

This project models the backend of a small personal-finance tracker. The
tracker keeps two tables in a relational store:

- **accounts**: an id, a name and a starting balance;
- **transactions**: a date, name, tag, amount and a type string. A row also
  links to accounts: `account_id` for income and expense, and
  `transfer_from_account_id` / `transfer_to_account_id` for transfers. It
  also records whether a credit card was used.

The model covers the route handlers that read and write those tables:

- **Accounts** (`accounts.dfy`): create an account, list all accounts, and
  rename an account. The rename ignores the starting balance in the payload.
- **Transactions** (`transactions.dfy`):
  - create: validate the type and the account links (400 or 404), then insert;
  - list: newest first, with null dates last, as MySQL sorts `date DESC`;
  - delete by id (404 when the id is unknown).
- **Yearly report** (`year_report.dfy`): selects the transactions dated
  inside year Y. Each one adds its signed amount to a 12-slot monthly list
  per account id:
  - income adds `+amount` to `account_id`;
  - expense adds `-amount` to `account_id`;
  - a transfer adds `-amount` to the source and `+amount` to the destination.

  Each account's list is then folded into 12 running balances that start
  from its starting balance. With no accounts the report fails with 404.
- **Financial report** (`financial_report.dfy`): for each account it sums,
  per month, the transactions whose `account_id` is that account and whose
  date falls in year Y. Income counts as `+amount`; every other type counts
  as `-amount`. It then folds those sums into running balances and totals
  the starting balances and the running balances across accounts. A failed
  read of the store becomes a 500.

Supporting modules:

- `ledger.dfy` holds the shared records and the store. The store is
  `Ledger.Database`, a class whose two tables are sequences in primary-key
  order. Its two autoincrement counters are fields.
- `balances.dfy` holds the running-balance fold and its prefix-sum facts.
- `report_comparison.dfy` relates the two report handlers.
- `store_effects.dfy` relates the writing routes to the reports.

The functions that encode the handlers' arithmetic and queries, and which
the lemmas in the table below are about:

- `YearReport.SelectYear` is the yearly report's query (`year.py:17-20`).
- `YearReport.Leg` is what one transaction adds to one account id, by type
  (`year.py:30-40`).
- `FinancialReport.SelectAccountYear` is the per-account query
  (`financial_report.py:21-26`).
- `FinancialReport.Signed` is the signed amount, `+amount` for income and
  `-amount` otherwise (`financial_report.py:32`).
- `Balances.Cumulative` is the running-balance fold of both reports
  (`year.py:46-51` and `financial_report.py:37-40`).
- `YearReport.Bucket` and `YearReport.Buckets` are the sums of the legs per
  month for one key, which the bucketing loop builds (`year.py:27-40`).
- `YearReport.Row` is the read of the `defaultdict`: a missing key yields
  12 zeros (`year.py:23` and `year.py:49`).
- `YearReport.LineStart` and `YearReport.LineOf` are one account's line:
  its start from the dictionary and its running balances (`year.py:45-57`).
- `FinancialReport.MonthlySum` and `FinancialReport.MonthlySums` are the
  per-month sums of the signed amounts (`financial_report.py:29-33`).
- `FinancialReport.SummaryOf` is one account's entry: name, start and
  running balances (`financial_report.py:36-49`).
- `FinancialReport.StartTotal` is the sum of the starting balances
  (`financial_report.py:16` and `financial_report.py:43`).
- `Transactions.Record` is the stored row built from the payload under a
  new id (`transactions.py:31`).
- `Transactions.NotBefore` is the `date DESC` order, with null dates last
  (`transactions.py:41`).

Modelling choices:

- Amounts are integers (cents). `round(x, 2)` is the identity on them.
- Python truthiness of an optional id (`None` and `0` are false) is
  `Ledger.Truthy`.
- The create and delete routes do **not** change any starting balance.
  Create only validates the account links before inserting the row (the
  comment at `transactions.py:14` says so), and delete is a plain removal
  of the row (`transactions.py:50-51`). Balances exist only in the reports,
  which recompute them from the transactions. The two report lemmas about
  deletion (`StoreEffects.DeleteShiftsYearBalances`,
  `StoreEffects.DeleteShiftsSummary`) show that a recomputed report still
  loses exactly what the deleted row had added.

## Model

| member | source | states |
|---|---|---|
| Ledger.FirstIndex | MyFinanceApp/backend/app/routes/transactions.py:45 | `filter(...).first()`: the index found is the first row satisfying the predicate; no index means no row satisfies it |
| Ledger.MonthIndex | MyFinanceApp/backend/app/routes/api/financial_report/year.py:28 | `date.month - 1` is a valid slot of a 12-entry list |
| Ledger.Database.constructor | MyFinanceApp/backend/app/models.py:7-23 | the store starts with both tables empty and valid keys |
| YearReport.InYear | MyFinanceApp/backend/app/routes/api/financial_report/year.py:19 | for a four-digit year Y, `date BETWEEN 'Y-01-01' AND 'Y-12-31'` holds exactly when the date's year is Y |
| YearReport.SelectYearMembers | MyFinanceApp/backend/app/routes/api/financial_report/year.py:17-20 | the report's query returns exactly the rows with a non-null date in year Y |
| YearReport.SelectYearEmpty | MyFinanceApp/backend/app/routes/api/financial_report/year.py:17-20 | with no row dated in Y, the query returns nothing |
| YearReport.SelectYearAppend | MyFinanceApp/backend/app/routes/api/financial_report/year.py:17-20 | the query keeps table order: a new last row is selected last or not at all |
| YearReport.SelectYearConcat | MyFinanceApp/backend/app/routes/api/financial_report/year.py:17-20 | the query distributes over concatenation of tables |
| YearReport.SelectYearAround | MyFinanceApp/backend/app/routes/api/financial_report/year.py:17-20 | the query over a table with a row in the middle is the query without it, plus that row if it is selected |
| YearReport.StartingBalances | MyFinanceApp/backend/app/routes/api/financial_report/year.py:24 | the dictionary's keys are exactly the account ids |
| YearReport.StartIsOwnBalance | MyFinanceApp/backend/app/routes/api/financial_report/year.py:24 | with distinct ids, each account's key maps to its own starting balance |
| YearReport.StartingBalancesIgnoreNames | MyFinanceApp/backend/app/routes/api/financial_report/year.py:24 | the dictionary depends only on ids and starting balances |
| YearReport.Add | MyFinanceApp/backend/app/routes/api/financial_report/year.py:23 | `monthly_data[k][idx] += x` on a defaultdict: only entry idx of key k moves, by x; a missing key reads as 12 zeros |
| YearReport.ApplyTransaction | MyFinanceApp/backend/app/routes/api/financial_report/year.py:28-40 | one pass of the loop body adds the transaction's leg for every key to its own month and nothing elsewhere |
| YearReport.BucketByMonth | MyFinanceApp/backend/app/routes/api/financial_report/year.py:27-40 | after the loop, every key's list holds, per month, the sum of that month's legs for the key |
| YearReport.BucketAppend | MyFinanceApp/backend/app/routes/api/financial_report/year.py:27-40 | one more row adds exactly its contribution to each bucket |
| YearReport.BucketRemove | MyFinanceApp/backend/app/routes/api/financial_report/year.py:27-40 | removing one row lowers each bucket by exactly its contribution |
| YearReport.RunningBalances | MyFinanceApp/backend/app/routes/api/financial_report/year.py:46-51 | the inner loop produces the running balances of the deltas from the start |
| YearReport.ReportOf | MyFinanceApp/backend/app/routes/api/financial_report/year.py:12-14 | the report fails with NotFound exactly when there are no accounts; otherwise it has the year, empty totals, and one line per account with its name and 12 balances |
| YearReport.GetReport | MyFinanceApp/backend/app/routes/api/financial_report/year.py:10-63 | the handler's loops, over the accounts and transactions stored in the database, compute exactly the report function |
| YearReport.BalanceIsStartPlusBuckets | MyFinanceApp/backend/app/routes/api/financial_report/year.py:44-57 | balance m of an account is its starting balance plus its buckets for months 0..m |
| YearReport.FlatWithoutTransactions | MyFinanceApp/backend/app/routes/api/financial_report/year.py:44-57 | with no row dated in the year, all 12 balances equal the starting balance |
| YearReport.AppendShiftsBalances | MyFinanceApp/backend/app/routes/api/financial_report/year.py:27-51 | a new transaction raises an account's balances by its leg from its own month on, and only if it is dated in the year |
| YearReport.NeutralTransactionIgnored | MyFinanceApp/backend/app/routes/api/financial_report/year.py:27-57 | a transaction that adds nothing to any account of the table leaves the report unchanged |
| YearReport.OutOfYearIgnored | MyFinanceApp/backend/app/routes/api/financial_report/year.py:17-20 | a transaction with no date or dated in another year changes nothing |
| YearReport.UnrecognisedTypeIgnored | MyFinanceApp/backend/app/routes/api/financial_report/year.py:30-40 | a type other than income, expense and transfer changes nothing |
| YearReport.SelfTransferNetsZero | MyFinanceApp/backend/app/routes/api/financial_report/year.py:34-40 | a transfer from an account to itself changes nothing |
| YearReport.UnknownAccountsIgnored | MyFinanceApp/backend/app/routes/api/financial_report/year.py:49 | legs keyed by ids that are not accounts of the table never reach the report |
| YearReport.TransferLegsSum | MyFinanceApp/backend/app/routes/api/financial_report/year.py:34-40 | over distinct ids, a transfer's legs sum to `-amount` for a known source plus `+amount` for a known destination |
| YearReport.TransferIntoAccountCredited | MyFinanceApp/backend/app/routes/api/financial_report/year.py:38-40 | a transfer into an account from another account raises its balances by the amount from the transfer's month on |
| YearReport.AppendShiftsColumn | MyFinanceApp/backend/app/routes/api/financial_report/year.py:42-57 | a new transaction moves the sum over lines of a month by the sum of what it adds to each line |
| YearReport.TransferShiftsCancel | MyFinanceApp/backend/app/routes/api/financial_report/year.py:34-40 | what a transfer between two accounts of the table adds to the lines of a month sums to zero |
| YearReport.TransferKeepsTotalBalance | MyFinanceApp/backend/app/routes/api/financial_report/year.py:34-40 | a transfer between two accounts of the table leaves the sum of all lines' balances unchanged in every month |
| FinancialReport.SelectAccountYearMembers | MyFinanceApp/backend/app/routes/financial_report.py:21-26 | the per-account query returns exactly the rows with that `account_id` and a date in year Y |
| FinancialReport.SelectAccountYearAppend | MyFinanceApp/backend/app/routes/financial_report.py:21-26 | the query keeps table order |
| FinancialReport.SelectAccountYearConcat | MyFinanceApp/backend/app/routes/financial_report.py:21-26 | the query distributes over concatenation of tables |
| FinancialReport.SelectAccountYearAround | MyFinanceApp/backend/app/routes/financial_report.py:21-26 | the per-account query over a table with a row in the middle is the query without it, plus that row if it is selected |
| FinancialReport.MonthlySumAppend | MyFinanceApp/backend/app/routes/financial_report.py:29-33 | one more row adds its signed amount to its own month's sum only |
| FinancialReport.MonthlySumRemove | MyFinanceApp/backend/app/routes/financial_report.py:29-33 | removing one row lowers its month's sum by exactly its signed amount |
| FinancialReport.SumByMonth | MyFinanceApp/backend/app/routes/financial_report.py:29-33 | the loop fills a fresh 12-entry array with the monthly signed sums |
| FinancialReport.FoldMonths | MyFinanceApp/backend/app/routes/financial_report.py:36-41 | the loop yields the running balances from the start, and adds each month's running balance into the totals array |
| FinancialReport.SummarizeAccount | MyFinanceApp/backend/app/routes/financial_report.py:19-49 | one pass of the per-account loop yields that account's summary and adds its running balances into the monthly totals |
| FinancialReport.ReportOf | MyFinanceApp/backend/app/routes/financial_report.py:45-58 | one summary per account with its name, start and 12 balances; 12 monthly totals |
| FinancialReport.GetFinancialReport | MyFinanceApp/backend/app/routes/financial_report.py:10-61 | a store that raises gives Internal (500); otherwise the handler's loops, over the tables stored in the database, compute exactly the report function |
| FinancialReport.EmptyTableReport | MyFinanceApp/backend/app/routes/financial_report.py:15-17 | with no accounts the report is empty, with a zero start total and 12 zero totals, not an error |
| FinancialReport.SummaryIsPrefixSum | MyFinanceApp/backend/app/routes/financial_report.py:36-40 | balance m of an account is its start plus its monthly sums for months 0..m |
| FinancialReport.TotalsCompoundStarts | MyFinanceApp/backend/app/routes/financial_report.py:41-43 | the monthly total is the start total plus all deltas up to that month: it totals running balances, not deltas |
| FinancialReport.ColumnsCompoundStarts | MyFinanceApp/backend/app/routes/financial_report.py:41 | the column sum of the running balances equals the start total plus every account's deltas up to the month |
| FinancialReport.StartTotalIgnoresNames | MyFinanceApp/backend/app/routes/financial_report.py:43 | the start total depends only on starting balances |
| FinancialReport.AppendShiftsSummary | MyFinanceApp/backend/app/routes/financial_report.py:21-40 | a new transaction moves its account's balances by its signed amount from its month on, only when it is that account's and in the year |
| FinancialReport.TransferCountsAsDebit | MyFinanceApp/backend/app/routes/financial_report.py:32 | a transfer recorded against an account lowers that account's balances, whichever side of the transfer the account is on |
| ReportComparison.BucketsAgree | MyFinanceApp/backend/app/routes/financial_report.py:21-33 | for income and expense rows, the two handlers' monthly sums per account coincide |
| ReportComparison.VariantsAgreeWithoutTransfers | MyFinanceApp/backend/app/routes/api/financial_report/year.py:27-57 | with only income and expense rows and distinct ids, both reports give every account the same 12 balances (for a four-digit year, see `YearReport.InYear` under "## Left out") |
| ReportComparison.VariantsDisagreeOnTransfer | MyFinanceApp/backend/app/routes/financial_report.py:32 | a transfer into an account that is also recorded with `account_id` set to that account raises the account's yearly-report balances by its amount and lowers its financial-report balances by the same amount |
| Transactions.Validate | MyFinanceApp/backend/app/routes/transactions.py:11-29 | accepted iff the type is known, the required links are truthy, and they name existing accounts; InvalidInput iff the type or a required link is missing; NotFound iff a given link names no account |
| Transactions.CreditCardSkipsAccountChecks | MyFinanceApp/backend/app/routes/transactions.py:15-21 | a credit-card income or expense is accepted whatever its `account_id` |
| Transactions.SelfTransferAccepted | MyFinanceApp/backend/app/routes/transactions.py:23-29 | a transfer from an existing account to itself is accepted |
| Transactions.CreateTransaction | MyFinanceApp/backend/app/routes/transactions.py:10-37 | on a validation error nothing changes; otherwise exactly the payload under a fresh id is appended; accounts are never written |
| Transactions.InsertByDate | MyFinanceApp/backend/app/routes/transactions.py:41 | inserting into a newest-first list keeps it newest first and adds exactly that row |
| Transactions.SortNewestFirst | MyFinanceApp/backend/app/routes/transactions.py:41 | the result is ordered by date descending, with null dates last, and is a permutation of the table |
| Transactions.GetTransactions | MyFinanceApp/backend/app/routes/transactions.py:39-41 | the listing is ordered newest first and is a permutation of the table |
| Transactions.NotBeforeTransitive | MyFinanceApp/backend/app/routes/transactions.py:41 | the `date DESC` order is transitive |
| Transactions.NotBeforeTotal | MyFinanceApp/backend/app/routes/transactions.py:41 | any two dates, null or not, are comparable |
| Transactions.DeleteTransaction | MyFinanceApp/backend/app/routes/transactions.py:43-53 | NotFound for an unknown id with nothing changed; otherwise the first row with that id is removed and nothing else changes |
| Transactions.DeleteKeepsOnlyOtherIds | MyFinanceApp/backend/app/routes/transactions.py:45-51 | with primary keys, every row left after a delete has a different id |
| Transactions.DeleteKeepsEveryOtherRow | MyFinanceApp/backend/app/routes/transactions.py:45-51 | every row with a different id survives a delete |
| Transactions.CreateThenDeleteRestores | MyFinanceApp/backend/app/routes/transactions.py:31-51 | deleting the row a create just appended finds it by id and restores the table |
| Accounts.Renamed | MyFinanceApp/backend/app/routes/accounts.py:33 | renaming keeps every id and starting balance, sets the name of that row only, and leaves every other row as it was |
| Accounts.RenameKeepsKeys | MyFinanceApp/backend/app/routes/accounts.py:33-34 | renaming keeps the primary keys valid |
| Accounts.RenameToSameNameIsIdentity | MyFinanceApp/backend/app/routes/accounts.py:33 | renaming a row to its own name changes nothing |
| Accounts.RenameTwiceKeepsLast | MyFinanceApp/backend/app/routes/accounts.py:33 | the second of two renames of a row wins |
| Accounts.CreateAccount | MyFinanceApp/backend/app/routes/accounts.py:16-22 | one row with the payload under the next id is appended; transactions are untouched |
| Accounts.ListAccounts | MyFinanceApp/backend/app/routes/accounts.py:24-26 | the listing is the table in key order, with distinct ids |
| Accounts.UpdateAccountName | MyFinanceApp/backend/app/routes/accounts.py:28-36 | NotFound iff no account has the id, with nothing changed; otherwise only that row's name changes, and the payload's starting balance is ignored |
| StoreEffects.RenameKeepsYearReport | MyFinanceApp/backend/app/routes/api/financial_report/year.py:44-57 | after a rename the yearly report is the same except for the renamed line's label |
| StoreEffects.RenameKeepsFinancialReport | MyFinanceApp/backend/app/routes/financial_report.py:19-58 | after a rename the financial report is the same, totals included, except for the renamed entry's label |
| StoreEffects.DeleteShiftsYearBalances | MyFinanceApp/backend/app/routes/api/financial_report/year.py:27-51 | after a delete, each line of the yearly report lacks exactly the deleted row's leg, from its month on |
| StoreEffects.YearRowRemoved | MyFinanceApp/backend/app/routes/api/financial_report/year.py:27-51 | a row in the middle of the table contributes exactly its leg to each line's balances from its month on |
| StoreEffects.SummaryRowRemoved | MyFinanceApp/backend/app/routes/financial_report.py:21-40 | a row in the middle of the table contributes exactly its signed amount to its account's balances from its month on |
| StoreEffects.DeleteShiftsSummary | MyFinanceApp/backend/app/routes/financial_report.py:21-40 | after a delete, the account the row was recorded against lacks exactly its signed amount, from its month on |

## Left out

- Floating point: amounts are exact integers (cents). `round(x, 2)` in both reports is therefore the identity. Rounding differences between the rounded balances and the unrounded monthly totals at `financial_report.py:40-41` are not modelled.
- SQL, ORM and session plumbing (`get_db`, `commit`, `refresh`, connection handling) are not modelled. Each route reads and writes the tables of one `Ledger.Database` atomically. Concurrent requests are not modelled.
- The ORM's in-place update of a loaded row (`account.name = ...`) is modelled as replacing that row in the table sequence. Row aliasing across sessions is not captured.
- GetFinancialReport: "any exception becomes 500" is modelled only for an exception raised by the store, given as the `storeFails` parameter. No other exception can arise in the model.
- Dates carry a day from 1 to 31 without a per-month check. Only the year and month take part in any computation.
- The transaction create and read schemas are not part of this model's sources. The payload's fields are taken from the handlers and the store layout. `models.py` in both of its versions lags behind the columns the handlers use, and is not followed.
- YearReport.InYear: the query's bounds are taken as the dates they spell for a four-digit year. MySQL reads a year below 1000 in those strings differently (a two-digit year such as 24 becomes 2024). `GET /24` then selects the rows of 2024, while the model selects the rows dated in year 24. The financial report's `extract("year", ...)` has no such reading. So `ReportComparison.VariantsAgreeWithoutTransfers` holds for the source only for four-digit years.
- Date parsing, the HTTP responses themselves (each `Ledger.Error` names its status code in a comment only), the frontend, and `main.py` routing are not modelled.
- `YearReport.GetReport` is `async` in the source. It awaits nothing, so it is modelled as an ordinary method.
