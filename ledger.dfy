/** The abstract store that replaces the database: the account table, keyed by id, and the
    append-only transaction table (the ledger), oldest record first. */
module Ledger {
  import opened Wrappers

  /** Account ids are issued by the store; here they are naturals handed out in creation order. */
  type AccountId = nat

  /** An account row. Balances are integers in minor currency units. */
  datatype Account = Account(id: AccountId, iban: string, balance: int)

  datatype TxType = Deposit | Withdrawal | Transfer

  /** The wire name of a transaction type. */
  function TypeName(t: TxType): string
  {
    match t
    case Deposit => "DEPOSIT"
    case Withdrawal => "WITHDRAWAL"
    case Transfer => "TRANSFER"
  }

  /** The `switch (type)` of the transaction handler: a known name, or nothing. */
  function ParseType(name: string): (t: Option<TxType>)
    ensures t.Some? ==> TypeName(t.value) == name
    ensures t.None? ==> forall k: TxType :: TypeName(k) != name
  {
    if name == "DEPOSIT" then Some(Deposit)
    else if name == "WITHDRAWAL" then Some(Withdrawal)
    else if name == "TRANSFER" then Some(Transfer)
    else None
  }

  /** Parsing inverts naming: every type is recognised under its own name. */
  lemma ParseTypeName(t: TxType)
    ensures ParseType(TypeName(t)) == Some(t)
  {
  }

  /** A row of the transaction table. Which account columns are filled depends on the type. */
  datatype TxRecord = TxRecord(kind: TxType, amount: int, fromAccountId: Option<AccountId>, toAccountId: Option<AccountId>)

  /** The shape every committed record has: a positive amount, a destination for deposits, a
      source for withdrawals, and both for transfers. */
  predicate WellFormed(r: TxRecord)
  {
    && r.amount > 0
    && match r.kind
       case Deposit => r.fromAccountId.None? && r.toAccountId.Some?
       case Withdrawal => r.fromAccountId.Some? && r.toAccountId.None?
       case Transfer => r.fromAccountId.Some? && r.toAccountId.Some?
  }

  /** The record names `id` as its source or its destination. */
  predicate Involves(r: TxRecord, id: AccountId)
  {
    r.fromAccountId == Some(id) || r.toAccountId == Some(id)
  }

  /** Every account the record names has an id below `n`. */
  predicate RefersBelow(r: TxRecord, n: nat)
  {
    && (r.fromAccountId.Some? ==> r.fromAccountId.value < n)
    && (r.toAccountId.Some? ==> r.toAccountId.value < n)
  }

  /** What committing `r` does to the balance of `id`: the batch decrements the source by the
      amount and increments the destination by the amount (so a self-transfer nets to zero). */
  function Effect(r: TxRecord, id: AccountId): (d: int)
    ensures !Involves(r, id) ==> d == 0
    ensures r.fromAccountId == r.toAccountId ==> d == 0
  {
    (if r.toAccountId == Some(id) then r.amount else 0) - (if r.fromAccountId == Some(id) then r.amount else 0)
  }

  /** The total effect of a ledger on the balance of `id`. */
  function NetEffect(ledger: seq<TxRecord>, id: AccountId): int
    decreases |ledger|
  {
    if ledger == [] then 0
    else NetEffect(ledger[..|ledger| - 1], id) + Effect(ledger[|ledger| - 1], id)
  }

  /** Appending a record adds its effect and nothing else. */
  lemma NetEffectAppend(ledger: seq<TxRecord>, r: TxRecord, id: AccountId)
    ensures NetEffect(ledger + [r], id) == NetEffect(ledger, id) + Effect(r, id)
  {
    assert (ledger + [r])[..|ledger|] == ledger;
  }

  /** An account that no record names has a net effect of zero. */
  lemma {:induction false} NetEffectOfUninvolved(ledger: seq<TxRecord>, id: AccountId)
    requires forall i | 0 <= i < |ledger| :: !Involves(ledger[i], id)
    ensures NetEffect(ledger, id) == 0
    decreases |ledger|
  {
    if ledger != [] {
      NetEffectOfUninvolved(ledger[..|ledger| - 1], id);
    }
  }

  /** The account map with the balance of `id` moved by `delta` (Prisma's `increment` and,
      with a negative delta, `decrement`). */
  function Adjust(accounts: map<AccountId, Account>, id: AccountId, delta: int): map<AccountId, Account>
    requires id in accounts
  {
    accounts[id := accounts[id].(balance := accounts[id].balance + delta)]
  }

  /** The sum of the balances of the accounts in `ids`. */
  ghost function TotalOver(accounts: map<AccountId, Account>, ids: set<AccountId>): int
    requires ids <= accounts.Keys
    decreases ids
  {
    if ids == {} then 0
    else
      var id :| id in ids;
      accounts[id].balance + TotalOver(accounts, ids - {id})
  }

  /** The sum of all balances in the store. */
  ghost function Total(accounts: map<AccountId, Account>): int
  {
    TotalOver(accounts, accounts.Keys)
  }

  /** The sum may be taken apart at any account, not only the one the definition picks. */
  lemma {:induction false} TotalOverRemove(accounts: map<AccountId, Account>, ids: set<AccountId>, j: AccountId)
    requires ids <= accounts.Keys && j in ids
    ensures TotalOver(accounts, ids) == accounts[j].balance + TotalOver(accounts, ids - {j})
    decreases ids
  {
    var k :| k in ids && TotalOver(accounts, ids) == accounts[k].balance + TotalOver(accounts, ids - {k});
    if k != j {
      TotalOverRemove(accounts, ids - {k}, j);
      TotalOverRemove(accounts, ids - {j}, k);
      assert ids - {k} - {j} == ids - {j} - {k};
    }
  }

  /** Two stores that agree on the balances of `ids` have the same sum over `ids`. */
  lemma {:induction false} TotalOverAgree(a: map<AccountId, Account>, b: map<AccountId, Account>, ids: set<AccountId>)
    requires ids <= a.Keys && ids <= b.Keys
    requires forall id | id in ids :: a[id].balance == b[id].balance
    ensures TotalOver(a, ids) == TotalOver(b, ids)
    decreases ids
  {
    if ids != {} {
      var k :| k in ids && TotalOver(a, ids) == a[k].balance + TotalOver(a, ids - {k});
      TotalOverRemove(b, ids, k);
      TotalOverAgree(a, b, ids - {k});
    }
  }

  /** Moving one balance by `delta` moves the sum of all balances by exactly `delta`. */
  lemma AdjustTotal(accounts: map<AccountId, Account>, id: AccountId, delta: int)
    requires id in accounts
    ensures Adjust(accounts, id, delta).Keys == accounts.Keys
    ensures Total(Adjust(accounts, id, delta)) == Total(accounts) + delta
  {
    var after := Adjust(accounts, id, delta);
    assert after.Keys == accounts.Keys;
    TotalOverRemove(accounts, accounts.Keys, id);
    TotalOverRemove(after, accounts.Keys, id);
    TotalOverAgree(accounts, after, accounts.Keys - {id});
  }

  /** The store invariant: ids are exactly 0 .. nextId-1, every account sits under its own id,
      every balance is non-negative and equals the net effect of the ledger on that account
      (new accounts start at 0), and every record is well formed and names existing accounts. */
  ghost predicate Consistent(accounts: map<AccountId, Account>, ledger: seq<TxRecord>, nextId: nat)
  {
    && (forall id: AccountId :: id in accounts <==> id < nextId)
    && (forall id | id in accounts :: accounts[id].id == id && 0 <= accounts[id].balance == NetEffect(ledger, id))
    && (forall i | 0 <= i < |ledger| :: WellFormed(ledger[i]) && RefersBelow(ledger[i], nextId))
  }

  /** The empty store is consistent. */
  lemma EmptyConsistent()
    ensures Consistent(map[], [], 0)
  {
  }

  /** Opening account `nextId` with balance 0 keeps the store consistent: no record names it yet. */
  lemma OpenKeepsConsistent(accounts: map<AccountId, Account>, ledger: seq<TxRecord>, nextId: nat, iban: string)
    requires Consistent(accounts, ledger, nextId)
    ensures Consistent(accounts[nextId := Account(nextId, iban, 0)], ledger, nextId + 1)
  {
    forall i | 0 <= i < |ledger|
      ensures !Involves(ledger[i], nextId)
    {
      assert RefersBelow(ledger[i], nextId);
    }
    NetEffectOfUninvolved(ledger, nextId);
  }
}
