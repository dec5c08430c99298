/** The transaction routes: create (validate, then insert), list newest
    first, and delete by id. None of them touches an account's starting
    balance. */
module Transactions {
  import opened Ledger

  /** The create payload: every column of a transaction but its id. */
  datatype TransactionCreate = TransactionCreate(
    date: Option<Date>,
    name: string,
    tag: string,
    amount: int,
    kind: string,
    accountId: Option<int>,
    fromAccountId: Option<int>,
    toAccountId: Option<int>,
    creditCardUsed: bool,
    creditCardName: Option<string>)

  /** `models.Transaction(**transaction.dict())` stored under `id`. */
  function Record(id: int, input: TransactionCreate): Transaction
  {
    Transaction(id, input.date, input.name, input.tag, input.amount, input.kind,
                input.accountId, input.fromAccountId, input.toAccountId,
                input.creditCardUsed, input.creditCardName)
  }

  predicate KnownKind(kind: string)
  {
    kind == "income" || kind == "expense" || kind == "transfer"
  }

  predicate IncomeOrExpense(kind: string)
  {
    kind == "income" || kind == "expense"
  }

  /** The links the payload must carry: an account for income or expense
      unless paid by credit card, both endpoints for a transfer. */
  predicate LinksGiven(input: TransactionCreate)
  {
    if IncomeOrExpense(input.kind) then input.creditCardUsed || Truthy(input.accountId)
    else Truthy(input.fromAccountId) && Truthy(input.toAccountId)
  }

  /** Those links name accounts of the table. */
  predicate LinksExist(input: TransactionCreate, accounts: seq<Account>)
  {
    if IncomeOrExpense(input.kind) then
      input.creditCardUsed || (input.accountId.Some? && HasAccount(accounts, input.accountId.value))
    else
      && input.fromAccountId.Some? && HasAccount(accounts, input.fromAccountId.value)
      && input.toAccountId.Some? && HasAccount(accounts, input.toAccountId.value)
  }

  /** The checks of create_transaction, in order; `None` means accepted. */
  function Validate(input: TransactionCreate, accounts: seq<Account>): (r: Option<Error>)
    ensures r.None? <==> KnownKind(input.kind) && LinksGiven(input) && LinksExist(input, accounts)
    ensures r == Some(InvalidInput) <==> !KnownKind(input.kind) || !LinksGiven(input)
    ensures r == Some(NotFound) <==> KnownKind(input.kind) && LinksGiven(input) && !LinksExist(input, accounts)
  {
    if input.kind !in ["income", "expense", "transfer"] then Some(InvalidInput)
    else if input.kind in ["income", "expense"] then
      if !input.creditCardUsed then
        if !Truthy(input.accountId) then Some(InvalidInput)
        else if AccountIndex(accounts, input.accountId.value).None? then Some(NotFound)
        else None
      else None
    else
      if !Truthy(input.fromAccountId) || !Truthy(input.toAccountId) then Some(InvalidInput)
      else
        var from := AccountIndex(accounts, input.fromAccountId.value);
        var to := AccountIndex(accounts, input.toAccountId.value);
        if from.None? || to.None? then Some(NotFound)
        else None
  }

  /** An income or expense paid by credit card skips every account check. */
  lemma CreditCardSkipsAccountChecks(input: TransactionCreate, accounts: seq<Account>)
    requires IncomeOrExpense(input.kind) && input.creditCardUsed
    ensures Validate(input, accounts) == None
  {
  }

  /** The same existing account on both sides of a transfer is accepted. */
  lemma SelfTransferAccepted(input: TransactionCreate, accounts: seq<Account>)
    requires input.kind == "transfer" && Truthy(input.fromAccountId) && input.toAccountId == input.fromAccountId
    requires HasAccount(accounts, input.fromAccountId.value)
    ensures Validate(input, accounts) == None
  {
  }

  /** create_transaction: on a validation error nothing changes; otherwise
      exactly one row, the payload under a fresh id, is appended. The
      accounts table is never written. */
  method CreateTransaction(db: Database, input: TransactionCreate) returns (r: Result<Transaction>)
    requires db.Valid()
    modifies db
    ensures db.Valid()
    ensures db.accounts == old(db.accounts) && db.nextAccountId == old(db.nextAccountId)
    ensures r.Failure? <==> Validate(input, old(db.accounts)).Some?
    ensures r.Failure? ==> Some(r.error) == Validate(input, old(db.accounts))
    ensures r.Failure? ==> db.transactions == old(db.transactions) && db.nextTransactionId == old(db.nextTransactionId)
    ensures r.Success? ==> r.value == Record(old(db.nextTransactionId), input)
    ensures r.Success? ==> db.transactions == old(db.transactions) + [r.value]
    ensures r.Success? ==> db.nextTransactionId == old(db.nextTransactionId) + 1
    ensures r.Success? ==> forall j :: 0 <= j < |old(db.transactions)| ==> old(db.transactions)[j].id != r.value.id
  {
    var error := Validate(input, db.accounts);
    if error.Some? {
      return Failure(error.value);
    }
    var row := Record(db.nextTransactionId, input);
    db.transactions := db.transactions + [row];
    db.nextTransactionId := db.nextTransactionId + 1;
    return Success(row);
  }

  /** `ORDER BY date DESC` as MySQL sorts it: later dates first, null dates last. */
  predicate NotBefore(a: Option<Date>, b: Option<Date>)
  {
    b.None? || (a.Some? && DateLeq(b.value, a.value))
  }

  predicate NewestFirst(rows: seq<Transaction>)
  {
    forall i, j :: 0 <= i < j < |rows| ==> NotBefore(rows[i].date, rows[j].date)
  }

  lemma NotBeforeTransitive(a: Option<Date>, b: Option<Date>, c: Option<Date>)
    requires NotBefore(a, b) && NotBefore(b, c)
    ensures NotBefore(a, c)
  {
  }

  lemma NotBeforeTotal(a: Option<Date>, b: Option<Date>)
    ensures NotBefore(a, b) || NotBefore(b, a)
  {
  }

  lemma PrependKeepsOrder(h: Transaction, rest: seq<Transaction>)
    requires NewestFirst(rest)
    requires forall x :: x in rest ==> NotBefore(h.date, x.date)
    ensures NewestFirst([h] + rest)
  {
    var r := [h] + rest;
    forall i, j | 0 <= i < j < |r| ensures NotBefore(r[i].date, r[j].date) {
      if i == 0 {
        assert r[j] == rest[j - 1];
        assert rest[j - 1] in rest;
      } else {
        assert r[i] == rest[i - 1] && r[j] == rest[j - 1];
      }
    }
  }

  /** Place `t` into rows already newest first. */
  function InsertByDate(rows: seq<Transaction>, t: Transaction): (r: seq<Transaction>)
    requires NewestFirst(rows)
    ensures NewestFirst(r)
    ensures multiset(r) == multiset(rows) + multiset{t}
  {
    if rows == [] then [t]
    else if NotBefore(t.date, rows[0].date) then
      assert forall x :: x in rows ==> NotBefore(t.date, x.date) by {
        forall x | x in rows ensures NotBefore(t.date, x.date) {
          var j :| 0 <= j < |rows| && rows[j] == x;
          if j > 0 { NotBeforeTransitive(t.date, rows[0].date, rows[j].date); }
        }
      }
      PrependKeepsOrder(t, rows);
      [t] + rows
    else
      var rest := InsertByDate(rows[1..], t);
      assert rows == [rows[0]] + rows[1..];
      assert forall x :: x in rest ==> NotBefore(rows[0].date, x.date) by {
        forall x | x in rest ensures NotBefore(rows[0].date, x.date) {
          assert x in multiset(rest);
          if x == t {
            NotBeforeTotal(t.date, rows[0].date);
          } else {
            assert x in multiset(rows[1..]);
            var j :| 0 <= j < |rows[1..]| && rows[1..][j] == x;
            assert rows[j + 1] == x;
          }
        }
      }
      PrependKeepsOrder(rows[0], rest);
      [rows[0]] + rest
  }

  /** The rows of the table, newest first. */
  function SortNewestFirst(rows: seq<Transaction>): (r: seq<Transaction>)
    ensures NewestFirst(r)
    ensures multiset(r) == multiset(rows)
  {
    if rows == [] then []
    else
      assert rows == rows[..|rows| - 1] + [rows[|rows| - 1]];
      InsertByDate(SortNewestFirst(rows[..|rows| - 1]), rows[|rows| - 1])
  }

  /** get_transactions: every stored transaction, newest first. */
  method GetTransactions(db: Database) returns (rows: seq<Transaction>)
    ensures NewestFirst(rows)
    ensures multiset(rows) == multiset(db.transactions)
  {
    rows := SortNewestFirst(db.transactions);
  }

  /** delete_transaction: NotFound for an unknown id; otherwise that one row
      leaves the table and nothing else changes (no balance is reversed). */
  method DeleteTransaction(db: Database, id: int) returns (r: Result<string>)
    requires db.Valid()
    modifies db
    ensures db.Valid()
    ensures db.accounts == old(db.accounts)
    ensures db.nextAccountId == old(db.nextAccountId) && db.nextTransactionId == old(db.nextTransactionId)
    ensures r.Failure? <==> TransactionIndex(old(db.transactions), id).None?
    ensures r.Failure? ==> r.error == NotFound && db.transactions == old(db.transactions)
    ensures r.Success? ==>
      var k := TransactionIndex(old(db.transactions), id).value;
      db.transactions == old(db.transactions)[..k] + old(db.transactions)[k + 1..]
  {
    var found := TransactionIndex(db.transactions, id);
    if found.None? {
      return Failure(NotFound);
    }
    var k := found.value;
    db.transactions := db.transactions[..k] + db.transactions[k + 1..];
    return Success("Transaction deleted");
  }

  /** With ascending primary keys, a row left after deleting row `k` is a
      row of the table with a different id. */
  lemma DeleteKeepsOnlyOtherIds(rows: seq<Transaction>, next: int, k: nat, t: Transaction)
    requires TransactionKeys(rows, next) && k < |rows|
    requires t in rows[..k] + rows[k + 1..]
    ensures t in rows && t.id != rows[k].id
  {
    var rest := rows[..k] + rows[k + 1..];
    var j :| 0 <= j < |rest| && rest[j] == t;
    if j < k {
      assert rest[j] == rows[j];
    } else {
      assert rest[j] == rows[j + 1];
    }
  }

  /** Deleting row `k` keeps every row whose id differs from its id. */
  lemma DeleteKeepsEveryOtherRow(rows: seq<Transaction>, k: nat, t: Transaction)
    requires k < |rows| && t in rows && t.id != rows[k].id
    ensures t in rows[..k] + rows[k + 1..]
  {
    var rest := rows[..k] + rows[k + 1..];
    var j :| 0 <= j < |rows| && rows[j] == t;
    if j < k {
      assert rest[j] == t;
    } else {
      assert rest[j - 1] == t;
    }
  }

  /** Deleting the row that create just appended gives back the table as it
      was before the create. */
  lemma CreateThenDeleteRestores(rows: seq<Transaction>, next: int, t: Transaction)
    requires TransactionKeys(rows, next) && t.id >= next
    ensures TransactionIndex(rows + [t], t.id) == Some(|rows|)
    ensures (rows + [t])[..|rows|] + (rows + [t])[|rows| + 1..] == rows
  {
    var found := TransactionIndex(rows + [t], t.id);
    assert (rows + [t])[|rows|].id == t.id;
  }
}
