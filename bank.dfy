/** The store as the route handlers change it in place: the account table, the transaction
    table and the store's id counter. Each POST handler is a method that checks its guards in
    the handler's order and then performs its writes as one step. */
module Bank {
  import opened Wrappers
  import opened Ledger
  import opened TransactionRoute
  import Iban
  import AccountRoute

  class Store {
    var accounts: map<AccountId, Account>
    var ledger: seq<TxRecord>
    var nextId: nat

    ghost predicate Valid()
      reads this
    {
      Consistent(accounts, ledger, nextId)
    }

    /** An empty database. */
    constructor ()
      ensures Valid()
      ensures accounts == map[] && ledger == [] && nextId == 0
    {
      accounts, ledger, nextId := map[], [], 0;
      EmptyConsistent();
    }

    /** POST /api/account. A missing, empty or ill-shaped IBAN is answered with 400 and creates
        nothing; otherwise one new account (balance 0) is created under a fresh id and returned.
        No existing account is searched for the same IBAN; a store failure is answered with 500
        and creates nothing. */
    method CreateAccount(iban: Option<string>, storeOk: bool) returns (resp: Response<Account>)
      requires Valid()
      modifies this
      ensures Valid()
      ensures ledger == old(ledger)
      ensures !AccountRoute.IbanGuardPasses(iban) ==>
                resp == Err(400, AccountRoute.InvalidIban) && accounts == old(accounts) && nextId == old(nextId)
      ensures AccountRoute.IbanGuardPasses(iban) && !storeOk ==>
                resp == Err(500, AccountRoute.CreationFailed) && accounts == old(accounts) && nextId == old(nextId)
      ensures AccountRoute.IbanGuardPasses(iban) && storeOk ==>
                && resp == Ok(Account(old(nextId), iban.value, 0))
                && old(nextId) !in old(accounts)
                && accounts == old(accounts)[old(nextId) := resp.body]
                && nextId == old(nextId) + 1
    {
      if iban.None? || iban.value == "" || !Iban.Matches(Iban.IbanPattern, iban.value) {
        return Err(400, AccountRoute.InvalidIban);
      }
      if !storeOk {
        return Err(500, AccountRoute.CreationFailed);
      }
      var account := Account(nextId, iban.value, 0);
      OpenKeepsConsistent(accounts, ledger, nextId, iban.value);
      accounts := accounts[nextId := account];
      nextId := nextId + 1;
      resp := Ok(account);
    }

    /** POST /api/transaction: the guards, then the record and the balance updates together. */
    method PostTransaction(req: TxRequest, storeOk: bool) returns (resp: Response<TxRecord>)
      requires Valid()
      modifies this
      ensures Valid()
      ensures nextId == old(nextId)
      ensures Outcome(accounts, ledger, resp) == Post(old(accounts), old(ledger), req, storeOk)
    {
      ghost var o := Post(accounts, ledger, req, storeOk);
      PostKeepsConsistent(accounts, ledger, nextId, req, storeOk);
      assert Consistent(o.accounts, o.ledger, nextId);
      if req.amount <= 0 {
        return Err(400, AmountNotPositive);
      }
      var kind := ParseType(req.kind);
      if kind.None? {
        return Err(400, InvalidType);
      }
      match kind.value {
        case Deposit =>
          if !Found(accounts, req.toAccountId) {
            return Err(404, AccountNotFound);
          }
          if !storeOk {
            return Err(500, ProcessingFailed);
          }
          var to := req.toAccountId.value;
          var rec := TxRecord(Deposit, req.amount, None, req.toAccountId);
          ledger := ledger + [rec];
          accounts := accounts[to := accounts[to].(balance := accounts[to].balance + req.amount)];
          resp := Ok(rec);
          assert accounts == o.accounts && ledger == o.ledger;
        case Withdrawal =>
          if !Found(accounts, req.fromAccountId) {
            return Err(404, AccountNotFound);
          }
          var from := req.fromAccountId.value;
          if accounts[from].balance < req.amount {
            return Err(400, InsufficientFunds);
          }
          if !storeOk {
            return Err(500, ProcessingFailed);
          }
          var rec := TxRecord(Withdrawal, req.amount, req.fromAccountId, None);
          ledger := ledger + [rec];
          accounts := accounts[from := accounts[from].(balance := accounts[from].balance - req.amount)];
          resp := Ok(rec);
          assert accounts == o.accounts && ledger == o.ledger;
        case Transfer =>
          if !Found(accounts, req.fromAccountId) || !Found(accounts, req.toAccountId) {
            return Err(404, AccountsNotFound);
          }
          var from, to := req.fromAccountId.value, req.toAccountId.value;
          if accounts[from].balance < req.amount {
            return Err(400, InsufficientFunds);
          }
          if !storeOk {
            return Err(500, ProcessingFailed);
          }
          var rec := TxRecord(Transfer, req.amount, req.fromAccountId, req.toAccountId);
          ledger := ledger + [rec];
          accounts := accounts[from := accounts[from].(balance := accounts[from].balance - req.amount)];
          accounts := accounts[to := accounts[to].(balance := accounts[to].balance + req.amount)];
          resp := Ok(rec);
          assert accounts == o.accounts && ledger == o.ledger;
      }
    }
  }
}
