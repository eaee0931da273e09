/** The `/api/account` route: GET lists every account, POST checks the IBAN and creates one
    (the creation itself is `Bank.Store.CreateAccount`). */
module AccountRoute {
  import opened Wrappers
  import opened Ledger
  import opened Iban
  import AccountForm

  const InvalidIban := "Invalid IBAN format"
  const CreationFailed := "Failed to create account"

  /** The POST guard `!iban || !pattern.test(iban)` inverted: the field is present, not empty,
      and matches the pattern. */
  predicate IbanGuardPasses(iban: Option<string>)
  {
    iban.Some? && iban.value != "" && Matches(IbanPattern, iban.value)
  }

  /** The server accepts exactly the strings the form accepts; a missing field is refused. */
  lemma ServerAgreesWithForm(s: string)
    ensures IbanGuardPasses(Some(s)) <==> AccountForm.Submit(s).Send?
    ensures !IbanGuardPasses(None)
  {
    PatternMeansShape(s);
  }

  /** The GET handler: every account in the store, unfiltered, in id order. */
  function ListAccounts(accounts: map<AccountId, Account>, nextId: nat): (r: seq<Account>)
    requires forall id: AccountId :: id in accounts <==> id < nextId
    ensures |r| == nextId
    ensures forall id | id in accounts :: accounts[id] in r
    ensures forall i | 0 <= i < |r| :: r[i] in accounts.Values
  {
    var r := seq(nextId, i requires 0 <= i < nextId => accounts[i]);
    assert forall id | id in accounts :: r[id] == accounts[id];
    r
  }
}
