/** The account routes: create, list, and rename. The transactions table is
    never touched by any of them. */
module Accounts {
  import opened Ledger

  /** The create payload. */
  datatype AccountCreate = AccountCreate(name: string, startingBalance: int)

  /** The update payload; its starting balance is accepted but never applied. */
  datatype AccountUpdate = AccountUpdate(name: string, startingBalance: int)

  /** The table with row `k` renamed: every id and starting balance is kept,
      and no other row changes. */
  function Renamed(rows: seq<Account>, k: nat, name: string): (r: seq<Account>)
    requires k < |rows|
    ensures |r| == |rows|
    ensures r[k].name == name
    ensures forall j :: 0 <= j < |r| ==> r[j].id == rows[j].id && r[j].startingBalance == rows[j].startingBalance
    ensures forall j :: 0 <= j < |r| && j != k ==> r[j] == rows[j]
  {
    rows[k := Account(rows[k].id, name, rows[k].startingBalance)]
  }

  /** Renaming keeps the primary keys as they were. */
  lemma RenameKeepsKeys(rows: seq<Account>, next: int, k: nat, name: string)
    requires AccountKeys(rows, next) && k < |rows|
    ensures AccountKeys(Renamed(rows, k, name), next)
  {
  }

  /** Renaming a row to the name it already has changes nothing. */
  lemma RenameToSameNameIsIdentity(rows: seq<Account>, k: nat)
    requires k < |rows|
    ensures Renamed(rows, k, rows[k].name) == rows
  {
  }

  /** A second rename of the same row overrides the first. */
  lemma RenameTwiceKeepsLast(rows: seq<Account>, k: nat, first: string, second: string)
    requires k < |rows|
    ensures Renamed(Renamed(rows, k, first), k, second) == Renamed(rows, k, second)
  {
  }

  /** create_account: one row appended under the next autoincrement id,
      holding the payload's name and starting balance. */
  method CreateAccount(db: Database, input: AccountCreate) returns (account: Account)
    requires db.Valid()
    modifies db
    ensures db.Valid()
    ensures account == Account(old(db.nextAccountId), input.name, input.startingBalance)
    ensures db.accounts == old(db.accounts) + [account]
    ensures forall j :: 0 <= j < |old(db.accounts)| ==> old(db.accounts)[j].id != account.id
    ensures db.nextAccountId == old(db.nextAccountId) + 1
    ensures db.transactions == old(db.transactions) && db.nextTransactionId == old(db.nextTransactionId)
  {
    account := Account(db.nextAccountId, input.name, input.startingBalance);
    db.accounts := db.accounts + [account];
    db.nextAccountId := db.nextAccountId + 1;
  }

  /** list_accounts: every row, in primary-key order, each exactly once. */
  method ListAccounts(db: Database) returns (rows: seq<Account>)
    requires db.Valid()
    ensures rows == db.accounts
    ensures DistinctIds(rows)
  {
    rows := db.accounts;
  }

  /** update_account_name: NotFound for an unknown id and nothing changes;
      otherwise the first row with that id gets the new name, and only its
      name. */
  method UpdateAccountName(db: Database, accountId: int, update: AccountUpdate) returns (r: Result<Account>)
    requires db.Valid()
    modifies db
    ensures db.Valid()
    ensures db.transactions == old(db.transactions)
    ensures db.nextAccountId == old(db.nextAccountId) && db.nextTransactionId == old(db.nextTransactionId)
    ensures r.Failure? <==> !HasAccount(old(db.accounts), accountId)
    ensures r.Failure? ==> r.error == NotFound && db.accounts == old(db.accounts)
    ensures r.Success? ==>
      var k := AccountIndex(old(db.accounts), accountId).value;
      && db.accounts == Renamed(old(db.accounts), k, update.name)
      && r.value == Account(accountId, update.name, old(db.accounts)[k].startingBalance)
  {
    var found := AccountIndex(db.accounts, accountId);
    if found.None? {
      return Failure(NotFound);
    }
    var k := found.value;
    RenameKeepsKeys(db.accounts, db.nextAccountId, k, update.name);
    db.accounts := Renamed(db.accounts, k, update.name);
    return Success(db.accounts[k]);
  }
}
