# Mobile financial service ledger, modelled in Dafny

This project models the ledger behind a small mobile-financial-service backend
(an Express server over a MongoDB database, `index.js`). Users register, an
admin approves them, approved users log in, and authenticated callers move
money: send money to another user, cash out through an agent, cash in from an
agent. Every completed movement appends one record to a transactions log, and
a caller can list its ten newest records.

The model is one state machine over three parts:

- the users collection: a table of accounts (`Accounts.Account`: name, PIN,
  mobile number, email, role, status, balance). An account's id is its
  position, because records are only appended and a `findOne` returns the
  earliest match;
- the transactions collection: an append-only log of `Transactions.Transaction`
  records (sender, recipient, amount, fee, type, date);
- a clock: a counter that stands in for `new Date()` and ticks once per record.

Module by module:

- `Results`: `Option`, the refusal reasons, and the `Outcome`/`Result` types
  that replace HTTP status codes and response bodies.
- `Policy`: the constants (minimum 50, flat send fee 5 above 100, cash-out
  rate 1.5%, agent start balance 10000) and the balance checks of send-money and
  cash-out, in the handlers' order.
- `Accounts`: the account record, lookup by mobile number (used to find a
  counterparty), lookup by mobile number or email (used by registration and
  login), uniqueness of contacts, and the total money held.
- `Transactions`: the log record and the history query (filter by participant,
  sort by date descending, limit ten), with proofs that on a well-formed log it
  returns the account's newest records.
- `Ledger`: each handler as a step function on the state (`Register`, `Login`,
  `SendMoney`, `CashOut`, `CashIn`, `ApproveUser`), the invariant `Valid`, and
  the lemmas: rejection changes nothing, fee accounting, conservation,
  non-negativity, preservation of the invariant.
- `Handlers`: class `Server` with the users table, the log and the clock as
  fields. Each writing handler is a method that works as the JavaScript does. It
  reads both accounts into local copies and changes the copies' balances. It then
  writes each copy back with its own update and appends the record. Each method
  is proved to leave exactly the state its `Ledger` step function gives.

Behaviour of the handlers that the model keeps, and that the lemmas make explicit:

- Counterparties are looked up by mobile number only.
- Send money checks, in order: the recipient exists, the balance covers the
  principal, the principal is at least 50, and, above 100, the balance also
  covers the fee of 5.
- The two balance writes of a movement are computed from copies read before
  either write. When the caller names its own mobile number, the second write
  wins. A send to oneself therefore credits the principal and debits nothing
  (`Ledger.SendToSelfCredits`).
- Cash-in checks only that the named account is an agent. There is no minimum,
  no balance check, and no check of the caller's role, so an agent can be
  driven below zero (`Ledger.CashInCanOverdrawAgent`).
- The handlers do not re-check the caller's status; only login does.
- Approving or rejecting an id that names no account changes nothing and still
  succeeds.

Two further consequences of the handlers' code are kept as written:

- Send money and cash-out compare the balance with the principal before they
  check the minimum of 50 (index.js:152-153, 186-187), so a small request from
  a poor account is refused for its balance.
- Amounts are JavaScript numbers; the model uses exact rationals (see below).

## Model

| member | source | states |
|---|---|---|
| Policy.SendFee | index.js:154-155 | the send fee is either 0 or the flat 5, and it is positive exactly when the amount exceeds 100 |
| Policy.CashOutFee | index.js:189 | the cash-out fee is exactly 1.5% of the amount, strictly between 0 and the amount for a positive amount |
| Policy.InitialBalance | index.js:81 | a new account starts with 10000 when its role is `agent` and with 0 otherwise |
| Policy.SendCheck | index.js:152-156 | a send passes iff amount >= 50 and balance >= amount + fee; otherwise the reason follows the handler's order (principal, then minimum, then fee); on success the sender stays >= 0 |
| Policy.CashOutCheck | index.js:186-190 | a cash-out passes iff amount >= 50 and balance >= amount + 1.5% fee; the reasons follow the handler's order; on success the fee is positive and the user stays >= 0 |
| Accounts.FindByMobile | index.js:149 | returns the first account whose mobile number matches, or none exactly when no account has it |
| Accounts.FindByContact | index.js:72 | returns the first account matching the mobile number or the email, or none exactly when no account matches either |
| Accounts.UniqueMobileFound | index.js:72-75 | while contacts are unique, the lookup by an account's mobile number finds that account |
| Transactions.Involving | index.js:240 | keeps exactly the log records in which the account is sender or recipient |
| Transactions.SortByDate | index.js:241 | the result is sorted by date, newest first, and is a permutation of the input |
| Transactions.Take | index.js:242 | the limit returns a prefix of the input of length exactly min(n, length): the whole input when it has no more than n records, its first n otherwise |
| Transactions.History | index.js:238-246 | at most 10 records, each in the log and involving the caller, sorted newest first |
| Transactions.HistoryNewestFirst | index.js:240-243 | on a log with increasing dates, the history equals the caller's records read backwards and cut to 10, with strictly decreasing dates |
| Transactions.HistoryKeepsNewest | index.js:240-243 | a caller's record left out of the history is left out only because a full page of 10 strictly newer records precedes it |
| Ledger.Settle | index.js:157-174 | the credited account gains the amount; a distinct debited account loses amount + fee; no other account and no contact changes; one record (debited, credited, amount, fee, type, clock) is appended |
| Ledger.Register | index.js:63-96 | refuses exactly when a field is missing, then exactly when an account shares the mobile number or email, changing nothing; succeeds exactly when neither holds, appending exactly one pending account with the role's initial balance and leaving the rest unchanged |
| Ledger.Login | index.js:103-121 | user-not-found exactly when no account matches, then wrong PIN, then not approved; a token is issued exactly when the first matching account has the given PIN and is approved, and it carries that account's id and role |
| Ledger.SendMoney | index.js:146-177 | refuses for a missing recipient, else exactly when the send checks fail, with their reason and no change; on success performs the settle writes with the send fee |
| Ledger.CashOut | index.js:180-208 | refuses when the counterparty is missing or not an agent, else exactly when the cash-out checks fail, with no change; on success performs the settle writes with the 1.5% fee |
| Ledger.CashIn | index.js:211-235 | refuses, changing nothing, exactly when the counterparty is missing or not an agent; otherwise the agent pays and the caller is credited, with fee 0 |
| Ledger.ApproveUser | index.js:271-282 | forbidden exactly for a non-admin caller; invalid exactly for a missing id or an action other than approve/reject; succeeds exactly when neither holds, and then only that account's status changes, to approved or rejected |
| Ledger.SettleTotal | index.js:163-164 | the two writes lower the money held by all accounts by the fee when the accounts differ, and raise it by the amount when they are the same account |
| Ledger.SendMoneyMovesFunds | index.js:154-174 | after a successful send: amount >= 50, balance covered amount + fee (5 above 100, else 0), the recipient gains the amount, a distinct sender ends at old - amount - fee >= 0, the total drops by the fee, one send record is logged |
| Ledger.SendToSelfCredits | index.js:157-164 | a successful send to one's own mobile number leaves the account at old + amount, the recipient write winning, and raises the total by the amount |
| Ledger.CashOutMovesFunds | index.js:185-205 | after a successful cash-out: the counterparty is an agent, amount >= 50, the user covered amount + 1.5%, pays both when distinct, the agent gains the amount, the total drops by the fee, one cash-out record is logged |
| Ledger.CashOutKeepsUserNonNegative | index.js:186-192 | whatever the outcome, a user with a non-negative balance keeps a non-negative balance |
| Ledger.CashInMovesFunds | index.js:216-232 | with an agent counterparty a cash-in always succeeds: the caller gains the amount, a distinct agent loses it, their combined balance and the total are preserved, one fee-0 record is logged |
| Ledger.CashInCanOverdrawAgent | index.js:216-221 | an agent with balance 0 cashing in 100 ends at -100 from a state where every balance was non-negative |
| Ledger.RegisterPreservesValid | index.js:72-94 | registration keeps mobile numbers and emails unique and the log well formed |
| Ledger.SendMoneyPreservesValid | index.js:163-174 | a send keeps contacts unique, log dates increasing and before the clock, and log records pointing at existing accounts |
| Ledger.CashOutPreservesValid | index.js:194-205 | a cash-out keeps the invariant |
| Ledger.CashInPreservesValid | index.js:221-232 | a cash-in keeps the invariant |
| Ledger.ApproveUserPreservesValid | index.js:280 | a status change keeps the invariant |
| Ledger.MovementsKeepNonNegative | index.js:151-195 | sends and cash-outs, successful or not, keep every balance non-negative |
| Ledger.AdministrationKeepsNonNegative | index.js:81-94 | registration and approval keep every balance non-negative |
| Ledger.HistoryOfValidState | index.js:238-246 | in every reachable state the history is the caller's newest records, newest first, and skips a record only behind a full page of newer ones |
| Handlers.Server.Register | index.js:63-96 | the register handler leaves exactly the state and answer of Ledger.Register and keeps the invariant |
| Handlers.Server.SendMoney | index.js:146-177 | the send handler, with its local copies and two separate writes, leaves exactly the state and answer of Ledger.SendMoney and keeps the invariant |
| Handlers.Server.CashOut | index.js:180-208 | the cash-out handler leaves exactly the state and answer of Ledger.CashOut and keeps the invariant |
| Handlers.Server.CashIn | index.js:211-235 | the cash-in handler, agent write first, leaves exactly the state and answer of Ledger.CashIn and keeps the invariant |
| Handlers.Server.ApproveUser | index.js:271-282 | the approve-user handler leaves exactly the state and answer of Ledger.ApproveUser and keeps the invariant |

## Left out

- HTTP transport: Express setup, CORS and JSON middleware, routing, status codes, response bodies and `app.listen` (index.js:1-13, 291-297). Outcomes are `Outcome`/`Result` values.
- The MongoDB client, connection and ping (index.js:15-25, 47-57, 284-289). The collections are a sequence of accounts and a sequence of records in memory.
- PIN hashing with bcrypt (index.js:78, 109). The stored PIN is the given one, and a PIN matches when it is equal.
- JWT signing, verification and expiry, including `authenticateToken` (index.js:120, 125-135). The caller's id and role are inputs to the handlers.
- Admin bootstrap `createAdminIfNotExists` (index.js:27-45). The service starts with no accounts.
- Admin login (index.js:250-260) is not part of this model; it is a lookup and PIN comparison like login's, restricted to the admin role.
- The users listing (index.js:263-268) is not part of this model; it returns the table unchanged.
- The balance read (index.js:138-143) is not part of this model; it returns one field of the caller's record.
- Floating point: money is an exact rational, so `amount * 0.015` and the `+=`/`-=` updates carry no IEEE-754 double rounding.
- Non-numeric amounts: a JSON string amount is coerced or concatenated by JavaScript. Amounts here are numbers.
- Missing request fields: any falsy value counts as missing in JavaScript. Here a missing field is the empty string.
- Approve-user ids: an id that is not a valid ObjectId string makes the handler throw. Here the id is either absent or a number.
- Concurrency: concurrent handlers can interleave between the reads and the writes. Each handler here is one atomic step.
- A caller id that names no account: the lookup at index.js:148, 182, 213 yields null. When the counterparty is missing, the handler still answers not-found (index.js:151, 185, 216). Once the counterparty is found, the handler crashes at the first read of the caller's balance (index.js:152, 186, 220). The handlers here require the caller to exist, so the not-found answer for a missing caller is not modelled.
- Real timestamps: the date is a counter that increases with every record. The history sort therefore has no ties.
