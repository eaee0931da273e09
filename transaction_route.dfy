/** The `/api/transaction` route. `Post` is the POST handler as a transition of the store: the
    guards in the handler's order, then the atomic batch (one new record plus one or two balance
    updates), which either commits completely or changes nothing. `Query` is the GET handler. */
module TransactionRoute {
  import opened Wrappers
  import opened Ledger

  /** The request body, with typed fields. */
  datatype TxRequest = TxRequest(kind: string, amount: int, fromAccountId: Option<AccountId>, toAccountId: Option<AccountId>)

  /** The store after a request, and the handler's answer. */
  datatype Outcome = Outcome(accounts: map<AccountId, Account>, ledger: seq<TxRecord>, response: Response<TxRecord>)

  const AmountNotPositive := "Amount must be positive"
  const InvalidType := "Invalid transaction type"
  const AccountNotFound := "Account not found"
  const AccountsNotFound := "One or both accounts not found"
  const InsufficientFunds := "Insufficient funds"
  const ProcessingFailed := "Failed to process transaction"

  /** `findUnique` found a row for the (possibly absent) id. */
  predicate Found(accounts: map<AccountId, Account>, id: Option<AccountId>)
  {
    id.Some? && id.value in accounts
  }

  /** The `$transaction` batch: on success the new record is appended and the updated balances
      take effect together; a store failure is answered with 500 and leaves everything as it was. */
  function Commit(accounts: map<AccountId, Account>, ledger: seq<TxRecord>, updated: map<AccountId, Account>,
                  rec: TxRecord, storeOk: bool): Outcome
  {
    if storeOk then Outcome(updated, ledger + [rec], Ok(rec))
    else Outcome(accounts, ledger, Err(500, ProcessingFailed))
  }

  /** The POST handler. `storeOk` stands for whether the database accepts the batch. */
  function Post(accounts: map<AccountId, Account>, ledger: seq<TxRecord>, req: TxRequest, storeOk: bool): Outcome
  {
    if req.amount <= 0 then Outcome(accounts, ledger, Err(400, AmountNotPositive))
    else match ParseType(req.kind)
      case None => Outcome(accounts, ledger, Err(400, InvalidType))
      case Some(Deposit) =>
        if !Found(accounts, req.toAccountId) then Outcome(accounts, ledger, Err(404, AccountNotFound))
        else
          var to := req.toAccountId.value;
          Commit(accounts, ledger, Adjust(accounts, to, req.amount),
                 TxRecord(Deposit, req.amount, None, req.toAccountId), storeOk)
      case Some(Withdrawal) =>
        if !Found(accounts, req.fromAccountId) then Outcome(accounts, ledger, Err(404, AccountNotFound))
        else if accounts[req.fromAccountId.value].balance < req.amount then Outcome(accounts, ledger, Err(400, InsufficientFunds))
        else
          var from := req.fromAccountId.value;
          Commit(accounts, ledger, Adjust(accounts, from, -req.amount),
                 TxRecord(Withdrawal, req.amount, req.fromAccountId, None), storeOk)
      case Some(Transfer) =>
        if !Found(accounts, req.fromAccountId) || !Found(accounts, req.toAccountId) then Outcome(accounts, ledger, Err(404, AccountsNotFound))
        else if accounts[req.fromAccountId.value].balance < req.amount then Outcome(accounts, ledger, Err(400, InsufficientFunds))
        else
          var from, to := req.fromAccountId.value, req.toAccountId.value;
          var debited := Adjust(accounts, from, -req.amount);
          Commit(accounts, ledger, Adjust(debited, to, req.amount),
                 TxRecord(Transfer, req.amount, req.fromAccountId, req.toAccountId), storeOk)
  }

  /** The amount is examined before the type: a non-positive amount is answered with 400
      whatever the type, and an unknown type with a positive amount is answered with 400 too. */
  lemma RejectionOrder(accounts: map<AccountId, Account>, ledger: seq<TxRecord>, req: TxRequest, storeOk: bool)
    ensures Post(accounts, ledger, req, storeOk).response == Err(400, AmountNotPositive) <==> req.amount <= 0
    ensures Post(accounts, ledger, req, storeOk).response == Err(400, InvalidType)
            <==> req.amount > 0 && ParseType(req.kind).None?
  {
  }

  /** Every rejection returns before the batch: no balance moves and no record is added. */
  lemma RejectionChangesNothing(accounts: map<AccountId, Account>, ledger: seq<TxRecord>, req: TxRequest, storeOk: bool)
    ensures var o := Post(accounts, ledger, req, storeOk);
            o.response.Err? ==> o.accounts == accounts && o.ledger == ledger
  {
  }

  /** All or nothing: when the store refuses the batch, no request changes anything, and the
      answer is 500 "Failed to process transaction" exactly for the requests that pass every
      guard (those that would succeed had the store accepted). */
  lemma StoreFailureChangesNothing(accounts: map<AccountId, Account>, ledger: seq<TxRecord>, req: TxRequest)
    ensures var o := Post(accounts, ledger, req, false);
            o.response.Err? && o.accounts == accounts && o.ledger == ledger
    ensures Post(accounts, ledger, req, false).response == Err(500, ProcessingFailed)
            <==> Post(accounts, ledger, req, true).response.Ok?
  {
  }

  /** A success appends exactly one record, carrying the request's type and amount; a deposit
      records only the destination, a withdrawal only the source, a transfer both. */
  lemma SuccessRecordsRequest(accounts: map<AccountId, Account>, ledger: seq<TxRecord>, req: TxRequest, storeOk: bool)
    ensures var o := Post(accounts, ledger, req, storeOk);
            o.response.Ok? ==>
              var rec := o.response.body;
              && o.ledger == ledger + [rec]
              && ParseType(req.kind) == Some(rec.kind)
              && rec.amount == req.amount
              && WellFormed(rec)
              && rec.fromAccountId == (if rec.kind == Deposit then None else req.fromAccountId)
              && rec.toAccountId == (if rec.kind == Withdrawal then None else req.toAccountId)
  {
  }

  /** A success moves every balance by exactly the effect of the new record, and the set of
      accounts, their ids and their IBANs stay as they were. */
  lemma SuccessAppliesEffect(accounts: map<AccountId, Account>, ledger: seq<TxRecord>, req: TxRequest, storeOk: bool)
    ensures var o := Post(accounts, ledger, req, storeOk);
            o.response.Ok? ==>
              && o.accounts.Keys == accounts.Keys
              && forall id | id in accounts ::
                   o.accounts[id] == accounts[id].(balance := accounts[id].balance + Effect(o.response.body, id))
  {
  }

  /** DEPOSIT: a missing destination is answered with 404; otherwise (and when the store accepts)
      the destination gains exactly the amount and every other account is untouched. */
  lemma DepositSpec(accounts: map<AccountId, Account>, ledger: seq<TxRecord>, req: TxRequest, storeOk: bool)
    requires req.amount > 0 && ParseType(req.kind) == Some(Deposit)
    ensures var o := Post(accounts, ledger, req, storeOk);
            && (!Found(accounts, req.toAccountId) ==> o.response == Err(404, AccountNotFound))
            && (o.response.Ok? <==> Found(accounts, req.toAccountId) && storeOk)
            && (o.response.Ok? ==>
                  var to := req.toAccountId.value;
                  && o.accounts.Keys == accounts.Keys
                  && o.accounts[to].balance == accounts[to].balance + req.amount
                  && forall id | id in accounts && id != to :: o.accounts[id] == accounts[id])
  {
  }

  /** WITHDRAWAL: it succeeds iff the source exists, holds at least the amount (equality is
      enough) and the store accepts; then the source loses exactly the amount, so a
      non-negative balance stays non-negative, and every other account is untouched. */
  lemma WithdrawalSpec(accounts: map<AccountId, Account>, ledger: seq<TxRecord>, req: TxRequest, storeOk: bool)
    requires req.amount > 0 && ParseType(req.kind) == Some(Withdrawal)
    ensures var o := Post(accounts, ledger, req, storeOk);
            && (!Found(accounts, req.fromAccountId) ==> o.response == Err(404, AccountNotFound))
            && ((Found(accounts, req.fromAccountId) && accounts[req.fromAccountId.value].balance < req.amount)
                  ==> o.response == Err(400, InsufficientFunds))
            && (o.response.Ok? <==>
                  Found(accounts, req.fromAccountId) && accounts[req.fromAccountId.value].balance >= req.amount && storeOk)
            && (o.response.Ok? ==>
                  var from := req.fromAccountId.value;
                  && o.accounts.Keys == accounts.Keys
                  && o.accounts[from].balance == accounts[from].balance - req.amount
                  && o.accounts[from].balance >= 0
                  && forall id | id in accounts && id != from :: o.accounts[id] == accounts[id])
  {
  }

  /** TRANSFER: 404 unless both accounts exist, 400 when the source holds less than the amount;
      on success the source loses and the destination gains the amount. A transfer from an
      account to itself is not rejected: it is recorded and leaves that balance unchanged. */
  lemma TransferSpec(accounts: map<AccountId, Account>, ledger: seq<TxRecord>, req: TxRequest, storeOk: bool)
    requires req.amount > 0 && ParseType(req.kind) == Some(Transfer)
    ensures var o := Post(accounts, ledger, req, storeOk);
            && ((!Found(accounts, req.fromAccountId) || !Found(accounts, req.toAccountId))
                  ==> o.response == Err(404, AccountsNotFound))
            && ((&& Found(accounts, req.fromAccountId) && Found(accounts, req.toAccountId)
                 && accounts[req.fromAccountId.value].balance < req.amount)
                  ==> o.response == Err(400, InsufficientFunds))
            && (o.response.Ok? <==>
                  && Found(accounts, req.fromAccountId) && Found(accounts, req.toAccountId)
                  && accounts[req.fromAccountId.value].balance >= req.amount && storeOk)
            && (o.response.Ok? ==>
                  var from, to := req.fromAccountId.value, req.toAccountId.value;
                  && o.accounts.Keys == accounts.Keys
                  && (from != to ==>
                        && o.accounts[from].balance == accounts[from].balance - req.amount
                        && o.accounts[to].balance == accounts[to].balance + req.amount)
                  && (from == to ==> o.accounts[from] == accounts[from])
                  && forall id | id in accounts && id != from && id != to :: o.accounts[id] == accounts[id])
  {
  }

  /** The sum of all balances: a deposit raises it by the amount, a withdrawal lowers it by the
      amount, and a transfer (a self-transfer included) leaves it unchanged. */
  lemma TotalChange(accounts: map<AccountId, Account>, ledger: seq<TxRecord>, req: TxRequest, storeOk: bool)
    ensures var o := Post(accounts, ledger, req, storeOk);
            o.response.Ok? ==>
              Total(o.accounts) == Total(accounts) + (match o.response.body.kind
                                                      case Deposit => req.amount
                                                      case Withdrawal => -req.amount
                                                      case Transfer => 0)
  {
    var o := Post(accounts, ledger, req, storeOk);
    if o.response.Ok? {
      match o.response.body.kind
      case Deposit =>
        AdjustTotal(accounts, req.toAccountId.value, req.amount);
      case Withdrawal =>
        AdjustTotal(accounts, req.fromAccountId.value, -req.amount);
      case Transfer =>
        var debited := Adjust(accounts, req.fromAccountId.value, -req.amount);
        AdjustTotal(accounts, req.fromAccountId.value, -req.amount);
        AdjustTotal(debited, req.toAccountId.value, req.amount);
    }
  }

  /** No request drives a non-negative balance below zero. */
  lemma BalancesStayNonNegative(accounts: map<AccountId, Account>, ledger: seq<TxRecord>, req: TxRequest, storeOk: bool)
    requires forall id | id in accounts :: accounts[id].balance >= 0
    ensures var o := Post(accounts, ledger, req, storeOk);
            forall id | id in o.accounts :: o.accounts[id].balance >= 0
  {
    SuccessAppliesEffect(accounts, ledger, req, storeOk);
  }

  /** The handler keeps the store invariant: after any request every balance still equals the
      net effect of the ledger on its account. */
  lemma PostKeepsConsistent(accounts: map<AccountId, Account>, ledger: seq<TxRecord>, nextId: nat, req: TxRequest, storeOk: bool)
    requires Consistent(accounts, ledger, nextId)
    ensures var o := Post(accounts, ledger, req, storeOk);
            Consistent(o.accounts, o.ledger, nextId)
  {
    var o := Post(accounts, ledger, req, storeOk);
    if o.response.Ok? {
      var rec := o.response.body;
      SuccessAppliesEffect(accounts, ledger, req, storeOk);
      SuccessRecordsRequest(accounts, ledger, req, storeOk);
      BalancesStayNonNegative(accounts, ledger, req, storeOk);
      forall id | id in o.accounts
        ensures o.accounts[id].balance == NetEffect(o.ledger, id)
      {
        NetEffectAppend(ledger, rec, id);
      }
      assert RefersBelow(rec, nextId);
    }
  }

  /** A ledger record as GET returns it: its columns, with the source and destination accounts
      joined in (`include: { fromAccount, toAccount }`). */
  datatype TxView = TxView(kind: TxType, amount: int, fromAccount: Option<Account>, toAccount: Option<Account>)

  function Joined(accounts: map<AccountId, Account>, id: Option<AccountId>): Option<Account>
  {
    if Found(accounts, id) then Some(accounts[id.value]) else None
  }

  function View(r: TxRecord, accounts: map<AccountId, Account>): TxView
  {
    TxView(r.kind, r.amount, Joined(accounts, r.fromAccountId), Joined(accounts, r.toAccountId))
  }

  /** The positions of the records that name `id` as source or destination, newest first. */
  function MatchIndices(ledger: seq<TxRecord>, id: AccountId): (ix: seq<nat>)
    ensures forall k | 0 <= k < |ix| :: ix[k] < |ledger| && Involves(ledger[ix[k]], id)
    decreases |ledger|
  {
    if ledger == [] then []
    else
      var n := |ledger| - 1;
      (if Involves(ledger[n], id) then [n] else []) + MatchIndices(ledger[..n], id)
  }

  /** The matching positions are strictly decreasing (newest first) and miss no record that
      names `id`. */
  lemma {:induction false} MatchIndicesNewestFirst(ledger: seq<TxRecord>, id: AccountId)
    ensures var ix := MatchIndices(ledger, id);
            && (forall k, m | 0 <= k < m < |ix| :: ix[k] > ix[m])
            && (forall i | 0 <= i < |ledger| && Involves(ledger[i], id) :: i in ix)
    decreases |ledger|
  {
    if ledger != [] {
      var n := |ledger| - 1;
      var prefix := ledger[..n];
      MatchIndicesNewestFirst(prefix, id);
      var ixp := MatchIndices(prefix, id);
      var ixh: seq<nat> := if Involves(ledger[n], id) then [n] else [];
      var ix := MatchIndices(ledger, id);
      assert ix == ixh + ixp;
      forall i | 0 <= i < |ledger| && Involves(ledger[i], id)
        ensures i in ix
      {
        if i < n {
          assert prefix[i] == ledger[i];
          assert i in ixp;
        }
      }
    }
  }

  /** The GET handler: the records naming `id` as source or destination, newest first, with
      their accounts joined in. */
  function Query(ledger: seq<TxRecord>, accounts: map<AccountId, Account>, id: AccountId): seq<TxView>
    decreases |ledger|
  {
    if ledger == [] then []
    else
      var n := |ledger| - 1;
      (if Involves(ledger[n], id) then [View(ledger[n], accounts)] else []) + Query(ledger[..n], accounts, id)
  }

  /** GET returns exactly the records at the matching positions, in the order of those positions
      (newest first), each with its accounts joined in. */
  lemma {:induction false} QueryAtMatches(ledger: seq<TxRecord>, accounts: map<AccountId, Account>, id: AccountId)
    ensures var ix := MatchIndices(ledger, id);
            && |Query(ledger, accounts, id)| == |ix|
            && forall k | 0 <= k < |ix| :: Query(ledger, accounts, id)[k] == View(ledger[ix[k]], accounts)
    decreases |ledger|
  {
    if ledger != [] {
      var n := |ledger| - 1;
      var prefix := ledger[..n];
      QueryAtMatches(prefix, accounts, id);
      var ixp := MatchIndices(prefix, id);
      var qp := Query(prefix, accounts, id);
      var ix := MatchIndices(ledger, id);
      var q := Query(ledger, accounts, id);
      if Involves(ledger[n], id) {
        assert ix == [n] + ixp;
        assert q == [View(ledger[n], accounts)] + qp;
        forall k | 1 <= k < |ix|
          ensures q[k] == View(ledger[ix[k]], accounts)
        {
          assert q[k] == qp[k - 1] && ix[k] == ixp[k - 1];
          assert prefix[ixp[k - 1]] == ledger[ixp[k - 1]];
        }
      } else {
        assert ix == ixp && q == qp;
        forall k | 0 <= k < |ix|
          ensures q[k] == View(ledger[ix[k]], accounts)
        {
          assert prefix[ixp[k]] == ledger[ixp[k]];
        }
      }
    }
  }

  /** A newly appended record heads the history of each account it names, and nothing else in
      any history changes. */
  lemma QueryAppend(ledger: seq<TxRecord>, r: TxRecord, accounts: map<AccountId, Account>, id: AccountId)
    ensures Query(ledger + [r], accounts, id)
            == (if Involves(r, id) then [View(r, accounts)] else []) + Query(ledger, accounts, id)
  {
    assert (ledger + [r])[..|ledger|] == ledger;
  }
}
