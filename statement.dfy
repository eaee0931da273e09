/** The account statement view. For a selected account it takes that account's history as the
    transaction route returns it (newest first), gives each record a signed amount, and walks
    backwards from the account's current balance: every row is given the balance left after
    subtracting its own signed amount, which is the balance just BEFORE that transaction. The
    rows are then shown oldest first. */
module Statement {
  import opened Wrappers
  import opened Ledger
  import opened TransactionRoute

  /** A statement row: the transaction and the balance shown beside it. */
  datatype Row = Row(tx: TxView, balance: int)

  /** The selected account is the transfer's source (`fromAccount?.id === selectedAccountId`). */
  predicate IsSource(v: TxView, selected: AccountId)
  {
    v.fromAccount.Some? && v.fromAccount.value.id == selected
  }

  /** The signed amount shown for a transaction: deposits add, withdrawals subtract, and a
      transfer subtracts when the selected account is its source and adds otherwise. The source
      test comes first, so a transfer from the account to itself shows as a debit. */
  function SignedEffect(v: TxView, selected: AccountId): int
  {
    match v.kind
    case Deposit => v.amount
    case Withdrawal => -v.amount
    case Transfer => if IsSource(v, selected) then -v.amount else v.amount
  }

  /** The sum of the signed amounts of a list of transactions. */
  function SumEffects(txs: seq<TxView>, selected: AccountId): int
    decreases |txs|
  {
    if txs == [] then 0
    else SumEffects(txs[..|txs| - 1], selected) + SignedEffect(txs[|txs| - 1], selected)
  }

  /** The sum may be taken from the front as well. */
  lemma {:induction false} SumEffectsCons(v: TxView, txs: seq<TxView>, selected: AccountId)
    ensures SumEffects([v] + txs, selected) == SignedEffect(v, selected) + SumEffects(txs, selected)
    decreases |txs|
  {
    if txs != [] {
      var n := |txs| - 1;
      assert ([v] + txs)[..|txs|] == [v] + txs[..n];
      SumEffectsCons(v, txs[..n], selected);
    }
  }

  /** `accounts.find(a => a.id === accountId)`: the first listed account with that id. */
  function FindAccount(accounts: seq<Account>, id: AccountId): (r: Option<Account>)
    ensures r.None? <==> forall i | 0 <= i < |accounts| :: accounts[i].id != id
    ensures r.Some? ==> exists i | 0 <= i < |accounts| :: accounts[i] == r.value && r.value.id == id
                                                        && forall j | 0 <= j < i :: accounts[j].id != id
    decreases |accounts|
  {
    if accounts == [] then None
    else if accounts[0].id == id then Some(accounts[0])
    else
      var r := FindAccount(accounts[1..], id);
      assert r.Some? ==> exists i | 1 <= i < |accounts| :: accounts[i] == r.value && r.value.id == id
                                                           && forall j | 0 <= j < i :: accounts[j].id != id by {
        if r.Some? {
          var i :| 0 <= i < |accounts[1..]| && accounts[1..][i] == r.value
                   && forall j | 0 <= j < i :: accounts[1..][j].id != id;
          assert accounts[i + 1] == r.value;
          assert forall j | 0 <= j < i + 1 :: accounts[j].id != id by {
            forall j | 0 <= j < i + 1 ensures accounts[j].id != id {
              if j > 0 { assert accounts[j] == accounts[1..][j - 1]; }
            }
          }
        }
      }
      r
  }

  /** The `.map` step: newest first, each transaction with the running balance after its
      signed amount has been subtracted. */
  function Mapped(current: int, txs: seq<TxView>, selected: AccountId): seq<Row>
  {
    seq(|txs|, k requires 0 <= k < |txs| => Row(txs[k], current - SumEffects(txs[..k + 1], selected)))
  }

  function Reversed(rows: seq<Row>): seq<Row>
  {
    seq(|rows|, i requires 0 <= i < |rows| => rows[|rows| - 1 - i])
  }

  /** The statement rows for an account whose current balance is `current`: one per transaction,
      in the reverse of the newest-first order, and the row of the transaction at newest-first
      position k shows `current` minus the signed amounts at positions 0 .. k. */
  function Rows(current: int, txs: seq<TxView>, selected: AccountId): (rows: seq<Row>)
    ensures |rows| == |txs|
    ensures forall k | 0 <= k < |txs| ::
              rows[|txs| - 1 - k] == Row(txs[k], current - SumEffects(txs[..k + 1], selected))
  {
    Reversed(Mapped(current, txs, selected))
  }

  /** `calculateRunningBalance`: no rows when the selected id is not among the listed accounts,
      and otherwise the rows computed from that account's balance. */
  method CalculateRunningBalance(accounts: seq<Account>, txs: seq<TxView>, selected: AccountId) returns (rows: seq<Row>)
    ensures FindAccount(accounts, selected).None? ==> rows == []
    ensures FindAccount(accounts, selected).Some? ==> rows == Rows(FindAccount(accounts, selected).value.balance, txs, selected)
  {
    var account := FindAccount(accounts, selected);
    if account.None? {
      return [];
    }
    var current := account.value.balance;
    var balance := current;
    var mapped: seq<Row> := [];
    var i := 0;
    while i < |txs|
      invariant 0 <= i <= |txs|
      invariant balance == current - SumEffects(txs[..i], selected)
      invariant |mapped| == i
      invariant forall k | 0 <= k < i :: mapped[k] == Row(txs[k], current - SumEffects(txs[..k + 1], selected))
    {
      assert txs[..i + 1][..i] == txs[..i];
      balance := balance - SignedEffect(txs[i], selected);
      mapped := mapped + [Row(txs[i], balance)];
      i := i + 1;
    }
    assert mapped == Mapped(current, txs, selected);
    rows := Reversed(mapped);
  }

  /** Each row shows the balance before its transaction: adding the row's signed amount gives
      the next row's balance, and for the newest row the current balance. */
  lemma RowShowsBalanceBefore(current: int, txs: seq<TxView>, selected: AccountId, j: nat)
    requires j < |txs|
    ensures var rows := Rows(current, txs, selected);
            rows[j].balance + SignedEffect(rows[j].tx, selected)
            == if j + 1 < |rows| then rows[j + 1].balance else current
  {
    var n := |txs|;
    var k := n - 1 - j;
    var rows := Rows(current, txs, selected);
    assert txs[..k + 1][..k] == txs[..k];
    assert rows[j] == Row(txs[k], current - SumEffects(txs[..k + 1], selected));
    assert SumEffects(txs[..k + 1], selected) == SumEffects(txs[..k], selected) + SignedEffect(txs[k], selected);
    if j + 1 < n {
      assert rows[n - 1 - (k - 1)] == Row(txs[k - 1], current - SumEffects(txs[..k], selected));
    } else {
      assert txs[..k] == [];
    }
  }

  /** The sum of the signed amounts of the first `j` rows, oldest first. */
  function ForwardSum(rows: seq<Row>, selected: AccountId, j: nat): int
    requires j <= |rows|
  {
    if j == 0 then 0 else ForwardSum(rows, selected, j - 1) + SignedEffect(rows[j - 1].tx, selected)
  }

  /** Replaying forward from zero gives the same rows: when the current balance is the sum of
      the listed amounts, the oldest row shows 0 and every row shows the sum of the amounts of
      the rows before it. */
  lemma {:induction false} ForwardReplay(current: int, txs: seq<TxView>, selected: AccountId, j: nat)
    requires current == SumEffects(txs, selected)
    requires j < |txs|
    ensures Rows(current, txs, selected)[j].balance == ForwardSum(Rows(current, txs, selected), selected, j)
    decreases j
  {
    var rows := Rows(current, txs, selected);
    if j == 0 {
      assert txs[..|txs|] == txs;
    } else {
      ForwardReplay(current, txs, selected, j - 1);
      RowShowsBalanceBefore(current, txs, selected, j - 1);
    }
  }

  /** The IBAN text of a joined account (`undefined` when there is none). */
  function IbanText(a: Option<Account>): string
  {
    match a
    case Some(acc) => acc.iban
    case None => "undefined"
  }

  /** The description column: a transfer names the other side ("To <destination IBAN>" when the
      selected account is the source, "From <source IBAN>" otherwise); other types show their
      name. */
  function Description(v: TxView, selected: AccountId): string
  {
    if v.kind == Transfer then
      (if IsSource(v, selected) then "To" else "From") + " "
      + (if IsSource(v, selected) then IbanText(v.toAccount) else IbanText(v.fromAccount))
    else TypeName(v.kind)
  }

  /** A transfer's description agrees with the sign of its amount: "To" the destination exactly
      when it is shown as a debit, "From" the source exactly when it is shown as a credit. */
  lemma DescriptionMatchesSign(v: TxView, selected: AccountId)
    requires v.amount > 0
    ensures v.kind == Transfer && SignedEffect(v, selected) < 0 ==> Description(v, selected) == "To " + IbanText(v.toAccount)
    ensures v.kind == Transfer && SignedEffect(v, selected) > 0 ==> Description(v, selected) == "From " + IbanText(v.fromAccount)
    ensures v.kind != Transfer ==> Description(v, selected) == TypeName(v.kind)
  {
  }
}
