/** The transaction form: its schema as a predicate on the fields it posts, and the conditions
    under which the source and destination selectors are shown. The posted body is the form's
    data unchanged, so it is the route's `TxRequest`. */
module TransactionForm {
  import opened Wrappers
  import opened Ledger
  import opened TransactionRoute

  /** The initial field values: type DEPOSIT, amount 0, no accounts chosen. */
  const DefaultValues := TxRequest("DEPOSIT", 0, None, None)

  /** The schema: the type is one of the three names, the amount is positive, and both account
      ids are optional whatever the type. */
  predicate SchemaAccepts(f: TxRequest)
  {
    f.kind in {"DEPOSIT", "WITHDRAWAL", "TRANSFER"} && f.amount > 0
  }

  /** The source selector is shown for withdrawals and transfers. */
  predicate ShowsFromField(t: TxType)
  {
    t == Withdrawal || t == Transfer
  }

  /** The destination selector is shown for deposits and transfers. */
  predicate ShowsToField(t: TxType)
  {
    t == Deposit || t == Transfer
  }

  /** The schema's three names are exactly the types the route recognises. */
  lemma SchemaTypesAreRouteTypes(f: TxRequest)
    ensures f.kind in {"DEPOSIT", "WITHDRAWAL", "TRANSFER"} <==> ParseType(f.kind).Some?
  {
  }

  /** A request the form accepts passes the route's first two checks: it is never refused for
      its amount or for its type. */
  lemma SchemaPassesRouteGuards(accounts: map<AccountId, Account>, ledger: seq<TxRecord>, f: TxRequest, storeOk: bool)
    requires SchemaAccepts(f)
    ensures Post(accounts, ledger, f, storeOk).response != Err(400, AmountNotPositive)
    ensures Post(accounts, ledger, f, storeOk).response != Err(400, InvalidType)
  {
    RejectionOrder(accounts, ledger, f, storeOk);
  }

  /** The form does not require the ids the route needs: a form-valid request without them
      reaches the route's 404 answer, whatever the store holds. */
  lemma MissingIdsReachNotFound(accounts: map<AccountId, Account>, ledger: seq<TxRecord>, t: TxType, amount: int, storeOk: bool)
    requires amount > 0
    ensures SchemaAccepts(TxRequest(TypeName(t), amount, None, None))
    ensures Post(accounts, ledger, TxRequest(TypeName(t), amount, None, None), storeOk).response.Err?
    ensures Post(accounts, ledger, TxRequest(TypeName(t), amount, None, None), storeOk).response.status == 404
  {
    ParseTypeName(t);
  }

  /** The source selector is shown exactly for the types whose route branch reads the source:
      for the others any source value gives the same outcome, and for these a missing source
      is answered with 404. */
  lemma FromFieldShownExactlyWhenRead(accounts: map<AccountId, Account>, ledger: seq<TxRecord>, t: TxType, amount: int,
                                      from1: Option<AccountId>, from2: Option<AccountId>, to: Option<AccountId>, storeOk: bool)
    requires amount > 0
    ensures !ShowsFromField(t) ==>
              Post(accounts, ledger, TxRequest(TypeName(t), amount, from1, to), storeOk)
              == Post(accounts, ledger, TxRequest(TypeName(t), amount, from2, to), storeOk)
    ensures ShowsFromField(t) ==>
              Post(accounts, ledger, TxRequest(TypeName(t), amount, None, to), storeOk).response.status == 404
  {
    ParseTypeName(t);
  }

  /** The destination selector is shown exactly for the types whose route branch reads the
      destination, in the same sense. */
  lemma ToFieldShownExactlyWhenRead(accounts: map<AccountId, Account>, ledger: seq<TxRecord>, t: TxType, amount: int,
                                    from: Option<AccountId>, to1: Option<AccountId>, to2: Option<AccountId>, storeOk: bool)
    requires amount > 0
    ensures !ShowsToField(t) ==>
              Post(accounts, ledger, TxRequest(TypeName(t), amount, from, to1), storeOk)
              == Post(accounts, ledger, TxRequest(TypeName(t), amount, from, to2), storeOk)
    ensures ShowsToField(t) ==>
              Post(accounts, ledger, TxRequest(TypeName(t), amount, from, None), storeOk).response.status == 404
  {
    ParseTypeName(t);
  }

  /** The initial values do not pass the schema: the amount 0 is not positive. */
  lemma DefaultsFailSchema()
    ensures !SchemaAccepts(DefaultValues)
  {
  }
}
