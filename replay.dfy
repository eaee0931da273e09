/** How the statement view relates to the transaction processor. For every record that names
    an account, the statement's signed amount equals what the processor did to that account's
    balance, except for a transfer from the account to itself, which the processor nets to zero
    and the statement shows as a debit. So for an account without self-transfers the statement,
    walked back from the stored balance, starts at 0 and agrees with replaying the history
    forward from 0; a self-transfer shifts every row. */
module Replay {
  import opened Wrappers
  import opened Ledger
  import opened TransactionRoute
  import opened Statement
  import AccountRoute

  /** Every account the record names is stored under its own id. */
  predicate Joinable(r: TxRecord, accounts: map<AccountId, Account>)
  {
    && (r.fromAccountId.Some? ==> r.fromAccountId.value in accounts && accounts[r.fromAccountId.value].id == r.fromAccountId.value)
    && (r.toAccountId.Some? ==> r.toAccountId.value in accounts && accounts[r.toAccountId.value].id == r.toAccountId.value)
  }

  predicate SelfTransfer(r: TxRecord)
  {
    r.kind == Transfer && r.fromAccountId == r.toAccountId
  }

  /** The statement's signed amount for a record that names the account is the processor's
      effect on that account, except that a self-transfer is shown as a debit of its amount. */
  lemma SignedEffectOfRecord(r: TxRecord, accounts: map<AccountId, Account>, a: AccountId)
    requires WellFormed(r) && Joinable(r, accounts) && Involves(r, a)
    ensures SignedEffect(View(r, accounts), a) == if SelfTransfer(r) then -r.amount else Effect(r, a)
  {
  }

  /** Over a history without self-transfers on `a`, the statement's amounts add up to the net
      effect of the ledger on `a`. */
  lemma {:induction false} DisplayedSumIsNetEffect(ledger: seq<TxRecord>, accounts: map<AccountId, Account>, a: AccountId)
    requires forall i | 0 <= i < |ledger| :: WellFormed(ledger[i]) && Joinable(ledger[i], accounts)
    requires forall i | 0 <= i < |ledger| :: !(SelfTransfer(ledger[i]) && Involves(ledger[i], a))
    ensures SumEffects(Query(ledger, accounts, a), a) == NetEffect(ledger, a)
    decreases |ledger|
  {
    if ledger != [] {
      var n := |ledger| - 1;
      var r := ledger[n];
      var rest := Query(ledger[..n], accounts, a);
      DisplayedSumIsNetEffect(ledger[..n], accounts, a);
      assert NetEffect(ledger, a) == NetEffect(ledger[..n], a) + Effect(r, a);
      if Involves(r, a) {
        assert !SelfTransfer(r) && WellFormed(r) && Joinable(r, accounts);
        SignedEffectOfRecord(r, accounts, a);
        assert Query(ledger, accounts, a) == [View(r, accounts)] + rest;
        SumEffectsCons(View(r, accounts), rest, a);
      } else {
        assert Query(ledger, accounts, a) == rest;
      }
    }
  }

  /** In a consistent store every record can be joined with its accounts. */
  lemma ConsistentJoinable(accounts: map<AccountId, Account>, ledger: seq<TxRecord>, nextId: nat)
    requires Consistent(accounts, ledger, nextId)
    ensures forall i | 0 <= i < |ledger| :: WellFormed(ledger[i]) && Joinable(ledger[i], accounts)
  {
    forall i | 0 <= i < |ledger|
      ensures WellFormed(ledger[i]) && Joinable(ledger[i], accounts)
    {
      assert RefersBelow(ledger[i], nextId);
    }
  }

  /** The statement of an account without self-transfers, computed from the route's own
      answers (the account list and the account's history) in a consistent store: the account
      is found, its balance is the sum of the listed amounts, the oldest row shows 0 and every
      row shows the forward sum of the amounts before it. */
  lemma StatementReplaysFromZero(accounts: map<AccountId, Account>, ledger: seq<TxRecord>, nextId: nat, a: AccountId)
    requires Consistent(accounts, ledger, nextId) && a in accounts
    requires forall i | 0 <= i < |ledger| :: !(SelfTransfer(ledger[i]) && Involves(ledger[i], a))
    ensures FindAccount(AccountRoute.ListAccounts(accounts, nextId), a) == Some(accounts[a])
    ensures accounts[a].balance == SumEffects(Query(ledger, accounts, a), a)
    ensures var rows := Rows(accounts[a].balance, Query(ledger, accounts, a), a);
            forall j | 0 <= j < |rows| :: rows[j].balance == ForwardSum(rows, a, j)
  {
    var listed := AccountRoute.ListAccounts(accounts, nextId);
    assert listed[a] == accounts[a];
    ConsistentJoinable(accounts, ledger, nextId);
    DisplayedSumIsNetEffect(ledger, accounts, a);
    var txs := Query(ledger, accounts, a);
    var rows := Rows(accounts[a].balance, txs, a);
    forall j | 0 <= j < |rows|
      ensures rows[j].balance == ForwardSum(rows, a, j)
    {
      ForwardReplay(accounts[a].balance, txs, a, j);
    }
  }

  /** A self-transfer shifts the statement. After a deposit of 10 into a new account and a
      transfer of 5 from that account to itself, the stored balance is 10 but the oldest row of
      the statement shows 5 instead of 0, and the transfer's row shows 15. */
  lemma SelfTransferShiftsStatement()
    ensures var s1 := Post(map[0 := Account(0, "GB29NWBK60161331926819", 0)], [], TxRequest("DEPOSIT", 10, None, Some(0)), true);
            var s2 := Post(s1.accounts, s1.ledger, TxRequest("TRANSFER", 5, Some(0), Some(0)), true);
            && s1.response.Ok? && s2.response.Ok?
            && 0 in s2.accounts && s2.accounts[0].balance == 10
            && var rows := Rows(s2.accounts[0].balance, Query(s2.ledger, s2.accounts, 0), 0);
               |rows| == 2 && rows[0].balance == 5 && rows[1].balance == 15
  {
    var s1 := Post(map[0 := Account(0, "GB29NWBK60161331926819", 0)], [], TxRequest("DEPOSIT", 10, None, Some(0)), true);
    var s2 := Post(s1.accounts, s1.ledger, TxRequest("TRANSFER", 5, Some(0), Some(0)), true);
    var r1 := TxRecord(Deposit, 10, None, Some(0));
    var r2 := TxRecord(Transfer, 5, Some(0), Some(0));
    assert s1.ledger == [r1];
    assert s2.ledger == [r1, r2];
    var acc := s2.accounts;
    assert [r1, r2][..1] == [r1];
    assert [r1][..0] == [];
    var v1, v2 := View(r1, acc), View(r2, acc);
    assert Query([r1], acc, 0) == [v1] + Query([], acc, 0);
    var txs := Query([r1, r2], acc, 0);
    assert txs == [v2, v1];
    assert SignedEffect(v2, 0) == -5;
    assert SignedEffect(v1, 0) == 10;
    assert txs[..1] == [v2];
    assert [v2][..0] == [];
    assert txs[..2] == txs;
    assert SumEffects(txs[..1], 0) == -5;
    assert SumEffects(txs[..2], 0) == 5;
  }
}
