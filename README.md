# Banking demo: transaction processor, statement and input checks in Dafny

This project models the rules inside a small banking web application. The application keeps
accounts, each identified by an IBAN. It records deposits, withdrawals and transfers, and it
shows a running-balance statement for each account. The database is replaced by an abstract
store with three parts:

- a map from account id to account (id, IBAN, balance);
- an append-only ledger of transaction records, oldest first;
- the counter the store uses to issue account ids.

Modules, one per source file or concept:

- `Wrappers` (wrappers.dfy): `Option`, and `Response`, the handlers' answer (a body, or an
  HTTP status with the handler's message).
- `Ledger` (ledger.dfy): accounts, transaction types and records, and the effect of a record on
  a balance. It also holds the sum of all balances and the store invariant `Consistent`: every
  balance is non-negative and equals the net effect of the ledger on its account.
- `TransactionRoute` (transaction_route.dfy): the POST handler as a pure transition `Post`.
  It checks the guards in the handler's order (amount, type, accounts, funds), then runs the
  atomic batch. It also holds the GET handler `Query`: the records naming an account, newest
  first, with their accounts joined in.
- `Bank` (bank.dfy): the class `Store`, whose methods change the store in place.
  `CreateAccount` is POST `/api/account`. `PostTransaction` is POST `/api/transaction`, proved
  equal to `Post`.
- `Iban` (iban.dfy): the meaning of the pattern `^[A-Z]{2}\d{2}[A-Z0-9]{1,30}$`, proved equal to
  a position-by-position shape predicate. It is a layout check only. ISO 13616's mod 97-10
  check digits (ISO/IEC 7064) are not verified, and the model does not add that check.
- `AccountForm` (account_form.dfy) and `AccountRoute` (account_route.dfy): the client schema,
  the server guard (proved to accept the same strings), and the account listing.
- `Statement` (statement.dfy): the signed amount of each row, the backward running balance (a
  loop), and the transfer description.
- `TransactionForm` (transaction_form.dfy): the form schema and the field-visibility
  conditions, related to the route's branches.
- `Replay` (replay.dfy): the statement replayed against the processor. It proves agreement when
  the account has no self-transfers, and gives a concrete history where a self-transfer breaks it.

Each statement row shows the balance before its own transaction. The code subtracts the row's
signed amount from the running balance before attaching it (src/components/AccountStatement.tsx:87-88).
`Statement.Rows` and `Statement.RowShowsBalanceBefore` state this.

## Model

| member | source | states |
|---|---|---|
| `Ledger.ParseType` | src/app/api/transaction/route.ts:16-128 | a recognised type is one whose name is exactly DEPOSIT, WITHDRAWAL or TRANSFER; any other string is recognised as no type |
| `Ledger.ParseTypeName` | src/app/api/transaction/route.ts:16-128 | every type is recognised under its own wire name |
| `Ledger.Effect` | src/app/api/transaction/route.ts:111-118 | a committed record changes only the accounts it names; a transfer from an account to itself (decrement, then increment) nets to zero |
| `Ledger.NetEffectAppend` | src/app/api/transaction/route.ts:29-41 | appending a record adds exactly that record's effect to every account's net effect |
| `Ledger.NetEffectOfUninvolved` | src/app/api/account/route.ts:34-36 | an account that no record names has net effect 0, so a new account is consistent with balance 0 |
| `Ledger.AdjustTotal` | src/app/api/transaction/route.ts:37-40 | incrementing one balance by d moves the sum of all balances by exactly d and keeps the account set |
| `Ledger.OpenKeepsConsistent` | src/app/api/account/route.ts:34-36 | creating the next account with balance 0 keeps every balance equal to the ledger's net effect |
| `TransactionRoute.RejectionOrder` | src/app/api/transaction/route.ts:9-128 | the answer is 400 "Amount must be positive" iff amount ≤ 0 (whatever the type); it is 400 "Invalid transaction type" iff the amount is positive and the type unknown |
| `TransactionRoute.RejectionChangesNothing` | src/app/api/transaction/route.ts:9-100 | every error answer leaves all balances and the ledger unchanged |
| `TransactionRoute.StoreFailureChangesNothing` | src/app/api/transaction/route.ts:130-135 | when the store refuses the batch, nothing changes (all or nothing); the answer is 500 "Failed to process transaction" exactly for the requests that pass every guard |
| `TransactionRoute.SuccessRecordsRequest` | src/app/api/transaction/route.ts:29-110 | a success appends exactly one well-formed record with the request's type and amount: a deposit records only the destination, a withdrawal only the source, a transfer both |
| `TransactionRoute.SuccessAppliesEffect` | src/app/api/transaction/route.ts:29-121 | a success moves every balance by exactly the new record's effect and leaves ids, IBANs and the account set alone |
| `TransactionRoute.DepositSpec` | src/app/api/transaction/route.ts:17-44 | a missing destination gives 404; a deposit succeeds iff the destination exists and the store accepts; it raises that balance by exactly the amount and leaves every other account unchanged |
| `TransactionRoute.WithdrawalSpec` | src/app/api/transaction/route.ts:46-80 | 404 for a missing source and 400 when the balance is below the amount; success iff the source exists with balance ≥ amount (equality allowed); the balance drops by exactly the amount and stays ≥ 0; others unchanged |
| `TransactionRoute.TransferSpec` | src/app/api/transaction/route.ts:82-122 | 404 unless both accounts exist; 400 "Insufficient funds" when both exist and the source holds less than the amount; success iff both exist, the source holds at least the amount and the store accepts; source −amount and destination +amount; a self-transfer succeeds and leaves that account unchanged |
| `TransactionRoute.TotalChange` | src/app/api/transaction/route.ts:29-121 | the sum of all balances rises by the amount on a deposit, falls by it on a withdrawal, and is unchanged by a transfer |
| `TransactionRoute.BalancesStayNonNegative` | src/app/api/transaction/route.ts:58-118 | no request makes a non-negative balance negative |
| `TransactionRoute.PostKeepsConsistent` | src/app/api/transaction/route.ts:4-136 | after any request every balance still equals the net effect of the ledger on its account |
| `TransactionRoute.MatchIndices` | src/app/api/transaction/route.ts:143-149 | every returned position is a ledger record naming the account as source or destination |
| `TransactionRoute.MatchIndicesNewestFirst` | src/app/api/transaction/route.ts:143-149 | the returned positions strictly decrease (newest first) and include every record naming the account |
| `TransactionRoute.QueryAtMatches` | src/app/api/transaction/route.ts:143-154 | GET returns one entry per matching position, in that order, each the record with its accounts joined in |
| `TransactionRoute.QueryAppend` | src/app/api/transaction/route.ts:143-154 | a newly committed record heads the history of each account it names and changes no other entry |
| `Bank.Store.PostTransaction` | src/app/api/transaction/route.ts:4-136 | the in-place handler yields exactly the state and answer of `Post` and keeps the store invariant |
| `Bank.Store.CreateAccount` | src/app/api/account/route.ts:21-45 | missing, empty or ill-shaped IBAN: 400 "Invalid IBAN format" and no account; otherwise exactly one new account with that IBAN and balance 0 under a fresh id, returned; duplicates are not looked for; store failure: 500 and no account |
| `AccountRoute.ServerAgreesWithForm` | src/app/api/account/route.ts:27 | the server guard accepts a string iff the form schema does, and refuses a missing field |
| `AccountRoute.ListAccounts` | src/app/api/account/route.ts:4-12 | GET lists every stored account, unfiltered, and nothing else |
| `Iban.PatternMeansShape` | src/components/AccountForm.tsx:20 | the pattern accepts exactly: two letters A-Z, two digits 0-9, then 1 to 30 characters from A-Z0-9 |
| `Iban.FixedPiece` | src/components/AccountForm.tsx:20 | `[A-Z]{2}` and `\d{2}` take exactly two characters of their class |
| `Iban.LastPiece` | src/components/AccountForm.tsx:20 | the anchored `[A-Z0-9]{1,30}` takes all that is left: 1 to 30 characters of its class |
| `Iban.AcceptedLength` | src/components/AccountForm.tsx:20 | every accepted string has 5 to 34 characters |
| `Iban.AcceptedAlphabet` | src/components/AccountForm.tsx:20 | every character of an accepted string is A-Z or 0-9, so lower case, spaces and punctuation are refused |
| `Iban.CheckDigitsNotVerified` | src/components/AccountForm.tsx:20 | replacing positions 3-4 of an accepted string by any two digits still passes |
| `AccountForm.Submit` | src/components/AccountForm.tsx:17-46 | the form posts `{ iban }` with the field unchanged iff it has IBAN shape, and otherwise shows "Invalid IBAN format" |
| `AccountForm.InvalidExampleRejected` | src/components/__tests__/AccountForm.test.tsx:25-39 | "invalid-iban" is refused with "Invalid IBAN format" |
| `AccountForm.ValidExampleSubmitted` | src/components/__tests__/AccountForm.test.tsx:41-70 | "GB29NWBK60161331926819" is accepted and posted unchanged |
| `AccountForm.ZeroCheckDigitsAccepted` | src/components/AccountForm.tsx:20 | check digits "00", which mod 97-10 never yields, still pass |
| `Statement.FindAccount` | src/components/AccountStatement.tsx:80-81 | no account is found iff no listed account has the id; otherwise the first listed account with that id |
| `Statement.Rows` | src/components/AccountStatement.tsx:83-90 | one row per transaction, oldest first (the reverse of the newest-first list); the row for newest-first index k shows the current balance minus the signed amounts of indices 0..k |
| `Statement.CalculateRunningBalance` | src/components/AccountStatement.tsx:76-91 | no rows when the selected id is not among the accounts; otherwise the rows of `Rows` from that account's balance |
| `Statement.RowShowsBalanceBefore` | src/components/AccountStatement.tsx:83-90 | each row shows the balance before its own transaction: adding its signed amount gives the next row's balance, or the current balance for the newest row |
| `Statement.ForwardReplay` | src/components/AccountStatement.tsx:83-90 | when the current balance is the sum of the listed amounts, the oldest row shows 0 and every row shows the forward sum of the earlier rows' amounts |
| `Statement.DescriptionMatchesSign` | src/components/AccountStatement.tsx:130-140 | a transfer reads "To <destination IBAN>" when shown as a debit and "From <source IBAN>" when shown as a credit; other types show their name |
| `Replay.SignedEffectOfRecord` | src/components/AccountStatement.tsx:61-74 | the signed amount is +amount for a deposit, −amount for a withdrawal, −amount for a transfer out and +amount for one in, i.e. the processor's effect; a self-transfer alone is shown as −amount |
| `Replay.DisplayedSumIsNetEffect` | src/components/AccountStatement.tsx:61-74 | without self-transfers on the account, the statement's amounts over its history sum to the processor's net effect |
| `Replay.StatementReplaysFromZero` | src/components/AccountStatement.tsx:76-90 | in a consistent store, for an account without self-transfers, the account is found, its balance is the sum of its listed amounts, and the statement equals forward replay from 0 |
| `Replay.SelfTransferShiftsStatement` | src/components/AccountStatement.tsx:69-71 | deposit 10, then self-transfer 5: the stored balance is 10, yet the oldest row shows 5 and the transfer row 15 |
| `TransactionForm.SchemaTypesAreRouteTypes` | src/components/TransactionForm.tsx:27 | the schema's type names are exactly the types the route recognises |
| `TransactionForm.SchemaPassesRouteGuards` | src/components/TransactionForm.tsx:26-31 | a form-accepted request is never refused by the route for its amount or its type |
| `TransactionForm.MissingIdsReachNotFound` | src/components/TransactionForm.tsx:29-30 | a form-valid request without account ids passes the schema and gets the route's 404 |
| `TransactionForm.FromFieldShownExactlyWhenRead` | src/components/TransactionForm.tsx:117-118 | for deposits the source value never changes the outcome; for withdrawals and transfers (where the selector is shown) a missing source gives 404 |
| `TransactionForm.ToFieldShownExactlyWhenRead` | src/components/TransactionForm.tsx:148-149 | for withdrawals the destination value never changes the outcome; for deposits and transfers (where the selector is shown) a missing destination gives 404 |
| `TransactionForm.DefaultsFailSchema` | src/components/TransactionForm.tsx:48-51 | the initial values (DEPOSIT, amount 0) do not pass the schema |

## Left out

- HTTP, JSON and the ORM surface (response objects, request parsing, `fetch`) are not modelled. Each database call is an operation on the abstract store. Each answer is a `Response` value.
- A refused write (`$transaction`, `account.create`) is the `storeOk` parameter: the answer is 500 and nothing changes. It is read only after every guard, so a guard's answer comes first. Failed lookups and failures of the GET handlers are not modelled. The source answers those with 500 as well.
- Concurrency is not modelled. This covers the gap between the account lookups and the batch, and the parallel lookups of a transfer. Each POST is one atomic step.
- Money is an integer in minor units. Floating point and `parseFloat` are not modelled, nor the `toFixed(2)` formatting or the "+"/"−" strings that the statement parses back into numbers.
- Inputs are typed. JSON quirks (for example, a missing amount slipping past `amount <= 0`) and a non-string `iban` are not modelled.
- A missing `fromAccountId`/`toAccountId` counts as naming no account, so it gets the 404 answer. What the ORM does with an undefined unique key is not modelled.
- A GET without `accountId` (a null filter) is not modelled; the account id is always given.
- Timestamps are not modelled: ledger order is creation order, and `createdAt` ties are ignored. Date formatting is not modelled.
- Account ids are naturals issued by the store in creation order. The real ids come from the database. The account listing is in id order; the database's own listing order is not modelled.
- A new account's balance is assumed to start at 0. The default lives in a database schema that is not part of this model.
- The database schema is not part of this model. Any constraint it may impose, such as a unique IBAN, appears only as a store failure (500).
- The account GET also returns each account's sent and received transactions. The model lists the accounts only.
- UI state and rendering are not modelled: React hooks, the `transactionType` and selection state, toasts, `form.reset`, styling, the amount colour, and the page and layout components. The statement takes the GET result directly instead of fetching it.
- `getTransactionAmount` returns the raw amount for an unknown type. That branch is unreachable here, because the transaction type is a closed datatype.
