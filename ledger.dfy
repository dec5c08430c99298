/** The two tables of the finance tracker (accounts and transactions), the
    records they hold, and the error kinds the route handlers report. */
module Ledger {

  datatype Option<T> = None | Some(value: T)

  /** The HTTP errors the handlers raise: InvalidInput (400), NotFound (404)
      and Internal (500). */
  datatype Error = InvalidInput | NotFound | Internal

  datatype Result<T> = Success(value: T) | Failure(error: Error)

  type Month = m: int | 1 <= m <= 12 witness 1
  type Day = d: int | 1 <= d <= 31 witness 1

  /** A calendar date; only its year and month take part in any computation. */
  datatype Date = Date(year: int, month: Month, day: Day)

  /** Chronological order on dates (lexicographic on year, month, day). */
  predicate DateLeq(a: Date, b: Date)
  {
    a.year < b.year
    || (a.year == b.year && a.month < b.month)
    || (a.year == b.year && a.month == b.month && a.day <= b.day)
  }

  /** The slot of a date in a 12-entry monthly list: `date.month - 1`. */
  function MonthIndex(d: Date): (i: nat)
    ensures i < 12
  {
    d.month - 1
  }

  /** Python truthiness of an optional integer id: `None` and `0` are false. */
  predicate Truthy(id: Option<int>)
  {
    id.Some? && id.value != 0
  }

  /** A row of the accounts table; amounts are in cents. */
  datatype Account = Account(id: int, name: string, startingBalance: int)

  /** A row of the transactions table, with the fields the routes read. `kind`
      is the free `type` string ("income", "expense", "transfer" are the ones
      the code recognises). */
  datatype Transaction = Transaction(
    id: int,
    date: Option<Date>,
    name: string,
    tag: string,
    amount: int,
    kind: string,
    accountId: Option<int>,
    fromAccountId: Option<int>,
    toAccountId: Option<int>,
    creditCardUsed: bool,
    creditCardName: Option<string>)

  /** `query(...).filter(p).first()`: the index of the first row satisfying `p`. */
  function FirstIndex<T>(rows: seq<T>, p: T -> bool): (r: Option<nat>)
    ensures r.Some? ==> r.value < |rows| && p(rows[r.value])
    ensures r.Some? ==> forall j :: 0 <= j < r.value ==> !p(rows[j])
    ensures r.None? <==> forall j :: 0 <= j < |rows| ==> !p(rows[j])
  {
    if rows == [] then None
    else if p(rows[0]) then Some(0)
    else match FirstIndex(rows[1..], p)
      case None => None
      case Some(k) => Some(k + 1)
  }

  function AccountIndex(rows: seq<Account>, id: int): Option<nat>
  {
    FirstIndex(rows, (a: Account) => a.id == id)
  }

  function TransactionIndex(rows: seq<Transaction>, id: int): Option<nat>
  {
    FirstIndex(rows, (t: Transaction) => t.id == id)
  }

  /** Autoincrement primary keys: positive, below the next value the counter
      hands out, and strictly ascending in table order. */
  ghost predicate PrimaryKeys<T>(rows: seq<T>, key: T -> int, next: int)
  {
    && (forall i :: 0 <= i < |rows| ==> 0 < key(rows[i]) < next)
    && (forall i, j :: 0 <= i < j < |rows| ==> key(rows[i]) < key(rows[j]))
  }

  ghost predicate AccountKeys(rows: seq<Account>, next: int)
  {
    PrimaryKeys(rows, (a: Account) => a.id, next)
  }

  ghost predicate TransactionKeys(rows: seq<Transaction>, next: int)
  {
    PrimaryKeys(rows, (t: Transaction) => t.id, next)
  }

  /** No two rows share an id, as a primary key guarantees. */
  predicate DistinctIds(rows: seq<Account>)
  {
    forall i, j :: 0 <= i < j < |rows| ==> rows[i].id != rows[j].id
  }

  /** Two account tables that differ at most in names: same length, and row
      by row the same id and starting balance. */
  predicate SameIdsAndBalances(a: seq<Account>, b: seq<Account>)
  {
    && |a| == |b|
    && forall j :: 0 <= j < |a| ==> a[j].id == b[j].id && a[j].startingBalance == b[j].startingBalance
  }

  predicate HasAccount(rows: seq<Account>, id: int)
  {
    exists i :: 0 <= i < |rows| && rows[i].id == id
  }

  /** The relational store: the accounts and transactions tables and their
      autoincrement counters. */
  class Database {
    var accounts: seq<Account>
    var transactions: seq<Transaction>
    var nextAccountId: int
    var nextTransactionId: int

    ghost predicate Valid()
      reads this
    {
      && 0 < nextAccountId
      && 0 < nextTransactionId
      && AccountKeys(accounts, nextAccountId)
      && TransactionKeys(transactions, nextTransactionId)
    }

    constructor ()
      ensures Valid()
      ensures accounts == [] && transactions == []
    {
      accounts := [];
      transactions := [];
      nextAccountId := 1;
      nextTransactionId := 1;
    }
  }
}
