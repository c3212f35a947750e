# Premium subscription payment service — Dafny model

This project models the core of a Go HTTP service that sells premium
subscriptions. It covers three parts:

- **The payment workflow** (`POST /payment`). The handler checks the card
  fields and the card's expiry against the current time. It records a user
  subscription and a transaction in status "paid", looks up the buyer, and
  renders a receipt that shows only the last four card digits. It emails
  the receipt through an external email service. Only once that service
  answers 200 does it mark the transaction "completed".
- **The subscription catalog handlers**: create, get, update and a cascading
  delete. The delete removes a catalog entry together with the user
  subscriptions and transactions that refer to it, inside one database
  transaction that is rolled back on any failure.
- **The role gate** meant for the admin routes. It reads a bearer token,
  verifies it, finds the user with the claimed email, finds that user's
  role, and lets the request through only when the role code is the
  required one. The router defines the gate but leaves it switched off
  (router/router.go:19-20), so no route is guarded by it.

The database is modelled as a class `Database.Store` whose fields are the
tables. The catalog, user subscriptions and transactions are maps keyed by
primary key. Users and roles are sequences in primary-key order. Serial
counters model the id sequences. The handlers are methods that change the
store; each states the store's whole new state and the response. Two
invariants are kept by every handler:

- `Valid`: every row sits under its own id. The catalog's counter is at
  least 1 and key 0 is never stored. The user-subscription and transaction
  counters are ahead of every key in their tables. The catalog's counter
  may fall behind its keys, because a body can give an explicit id.
- `Consistent`: a "completed" transaction has had its receipt delivered, and
  a user subscription to the same catalog entry exists.

A few notes on how the model reads the code:

- Time is an integer count of nanoseconds. Each request reads the clock once
  (`now`).
- Card fields are byte strings, as Go strings are.
- The receipt renderer and the email service are function parameters whose
  answers the model does not constrain.
- The role gate is a pure decision function over the header, the token
  verifier, and the users and roles tables.
- A card whose expiry month has begun is refused with 402 and the message
  "Payment rejected: Card expired".
- A missing buyer is answered 500 "User not found", after both records
  have been written.
- A transaction is never set to "declined": after a failure past the
  validation gate it stays "paid".
- The role gate answers a missing user with 401 and a missing role with 403.
- The successful payment response echoes the whole request, card number
  and CVV included. The "last four digits" lemmas cover only the receipt
  renderer's input, not this response.
- The subscription handlers read the `id` query parameter. The `{id}` path
  segment of their routes is not read.
- Catalog writes follow GORM v2 on Postgres. A zero id lets the sequence
  choose the key. Before an INSERT, an empty status in the Go value is
  replaced by the column default "active". `Save` on a non-zero id is an
  UPDATE of the visible row with that key; when there is none, it is an
  INSERT that on a key conflict overwrites the existing, possibly
  soft-deleted, row. A varchar(n) column refuses longer text unless the
  excess is all spaces, which it cuts off. The Go `uint` id and period go
  into bigint columns. A value of 2^63 or more cannot be encoded, so the
  statement fails before it is sent and the id sequence does not move.
  The sequence itself stops at 2^63 - 1.

## Model

| member | source | states |
|---|---|---|
| `Payment.MaskCard` | controllers/payment.go:31-37 | a card shorter than 4 bytes becomes "****"; otherwise the result is 19 bytes: the star-and-space prefix "**** **** **** " followed by exactly the card's last four bytes |
| `Payment.MaskCardSeesOnlyLastFour` | controllers/payment.go:36 | two card numbers with the same last four bytes have the same mask |
| `Payment.MaskCardHidesTheRest` | controllers/payment.go:33-36 | every position of the mask other than the last four holds a star or a space |
| `Payment.ParseExpiry` | controllers/payment.go:111-118 | the "01/2006" layout accepts only two digits forming a month 01-12, a slash, and exactly four digits, years 0000-9999 |
| `Calendar.MonthStart` | controllers/payment.go:113 | the instant `time.Parse` gives for a month: midnight UTC, a whole number of days after the start of year 0 |
| `Payment.ParseFormatExpiry` | controllers/payment.go:111-118 | every month of years 0-9999 written as MM/YYYY is parsed back to itself |
| `Payment.FormatParseExpiry` | controllers/payment.go:111-118 | any text the parser accepts is exactly the MM/YYYY form of what it returns, so no other text is accepted |
| `Payment.Validate` | controllers/payment.go:104-124 | refused as "Invalid payment details" iff some field is empty; as "Invalid expiration date format" iff the fields are present and the expiry does not parse; accepted only when the expiry month starts no earlier than now |
| `Payment.RejectionMessage` | controllers/payment.go:105-123 | each refusal before any write has its own message: "Invalid payment details", "Invalid expiration date format", "Payment rejected: Card expired" |
| `Payment.ValidateAccepts` | controllers/payment.go:104-124 | a payment passes iff all fields are present and the expiry is the MM/YYYY text of a month whose first instant is not before now |
| `Payment.ExpiryMonthIsAlreadyTooLate` | controllers/payment.go:119-124 | a card is already refused as expired at any instant after the first nanosecond of its expiry month |
| `Payment.ExpiredIsDownwardClosed` | controllers/payment.go:119-124 | if a card is refused as expired, so is every card with an earlier or equal expiry month |
| `Payment.CatalogEntry` | controllers/payment.go:126-129 | the catalog row for the requested id, or a zero-period value when there is none, since the lookup error is not checked |
| `Payment.PeriodEnd` | controllers/payment.go:131-132 | the end lies exactly period days after the start, and equals it only for a zero period |
| `Payment.PurchaseRecord` | controllers/payment.go:134-143 | the recorded user subscription belongs to the requesting user and catalog entry, starts now and lasts the entry's period |
| `Payment.ReceiptFor` | controllers/payment.go:164-174 | the renderer is given the masked card number as the payment method |
| `Payment.ReceiptSeesOnlyLastFour` | controllers/payment.go:164-174 | card numbers that agree in their last four bytes give the renderer identical input |
| `Payment.EmailServiceUrl` | controllers/payment.go:181-186 | the configured address when one is set; never empty |
| `Payment.ReceiptEmail` | controllers/payment.go:188-193 | the email goes to the buyer's address and carries the rendered receipt |
| `Payment.Fulfil` | controllers/payment.go:154-248 | a delivery happens only for the requested user, with the receipt rendered for that user, when the email service answered 200; a missing user stops with "User not found" |
| `Payment.DeliveryFailureMessage` | controllers/payment.go:195-247 | the message is "Error sending email receipt" exactly when the request could not be sent or the endpoint answered with a status other than 200; every earlier stage has another message |
| `Payment.DeliveredWhenAccepted` | controllers/payment.go:154-248 | conversely, an existing user, a rendered receipt and a 200 reply always give a delivery |
| `Payment.SendReceipt` | controllers/payment.go:154-248 | the step-by-step lookup, render and send ends exactly as the specification function `Fulfil` says |
| `Payment.RecordPurchase` | controllers/payment.go:126-152 | adds exactly one user subscription and one "paid" transaction, under the next serial keys, which were free, and keeps both invariants |
| `Payment.CompletePurchase` | controllers/payment.go:251-254 | marks only that transaction "completed", stamped now, and records its receipt as delivered |
| `Payment.Purchase` | controllers/payment.go:126-266 | after validation: both records are added; the transaction ends "completed" iff the receipt was delivered, otherwise stays "paid" with a 500 and the step's message; on success the reply is 200 "Payment successful" with the records, the entry and "Payment successful. Receipt has been sent to <email>" |
| `Payment.PaySubscription` | controllers/payment.go:93-267 | an undecodable body gives 400 "Invalid JSON" and a refused form gives 400/402 with its message, both without any write; otherwise the outcome of `Purchase`; the catalog, users and roles never change and both store invariants hold |
| `Database.InsertedRow` | models/premium_subscription.go:5-13 | an inserted catalog row holds its key, keeps plan and period, and an empty status takes the column default "active" |
| `Database.WithDefaults` | models/premium_subscription.go:9 | before an INSERT, an empty status in the Go value becomes "active"; nothing else changes, and the row fits its columns exactly when it did before |
| `Database.Clip` | models/premium_subscription.go:7-9 | a varchar(n) column holds at most n characters, a prefix of the value; when the value is accepted, what was cut off is all spaces |
| `Database.ColumnValues` | models/premium_subscription.go:7-9 | the stored row differs from the given one only in plan and status, each cut to its column width; text that is accepted is the stored text followed by spaces; text within the width is stored unchanged |
| `Database.Insert` | controllers/subscripsion.go:28 | a zero id takes the next sequence value, which advances even when the database refuses the row, but not when the sequence has passed the largest bigint or an id or period of 2^63 or more keeps the statement from being sent; the insert is accepted iff its key was never held, the key and the period fit a bigint, and plan and status fit their columns; then the row is stored under that key; otherwise the table is unchanged and the Go value still carries the default status |
| `Database.Save` | controllers/subscripsion.go:76 | a zero id is an insert; otherwise the sequence is untouched and the write is accepted iff id and period fit a bigint and plan and status fit their columns; the Go value is unchanged when a visible row had the key or when id or period is 2^63 or more (the UPDATE is never sent, so no INSERT follows), and otherwise takes the default status; an accepted write stores the row under its own key, a refused one changes nothing |
| `Database.WriteTouchesOnlyItsKey` | controllers/subscripsion.go:28-76 | an insert or save changes no visible row other than the one under the written key, which then holds the Go value as its columns store it; an accepted insert never overwrites a visible row |
| `Database.Store.CreateCatalogRow` | controllers/subscripsion.go:28 | the table, the Go value and the outcome after the INSERT are those `Insert` gives |
| `Database.Store.SaveCatalogRow` | controllers/subscripsion.go:76 | the table, the Go value and the outcome after the save are those `Save` gives |
| `Database.Store.CreateUserSubscription` | controllers/payment.go:143 | the row is stored under the next serial key, which was free |
| `Database.Store.CreateTransaction` | controllers/payment.go:152 | the row is stored under the next serial key, which was free |
| `Database.Store.SaveTransaction` | controllers/payment.go:254 | the row replaces the stored one with the same id |
| `Database.Store.Begin` | controllers/subscripsion.go:92 | the snapshot holds the three tables as they are |
| `Database.Store.Rollback` | controllers/subscripsion.go:102 | the three tables return to the snapshot |
| `Database.Store.DeleteUserSubscriptionsOf` | controllers/subscripsion.go:100-107 | exactly the user subscriptions to that catalog id are removed |
| `Database.Store.DeleteTransactionsOf` | controllers/subscripsion.go:109-116 | exactly the transactions for that catalog id are removed |
| `Database.Store.DeleteCatalogRow` | controllers/subscripsion.go:118-125 | exactly the catalog row with that id is removed |
| `Database.UserSubscriptionsWithout` | controllers/subscripsion.go:101 | a row survives iff it does not refer to the id, and survivors are unchanged |
| `Database.TransactionsWithout` | controllers/subscripsion.go:110 | a row survives iff it does not refer to the id, and survivors are unchanged |
| `Database.CatalogWithout` | controllers/subscripsion.go:119 | a row survives iff its key is not the id, and survivors are unchanged |
| `Database.DeleteOfUnreferencedId` | controllers/subscripsion.go:100-125 | deleting an id nothing refers to changes no table |
| `Database.DeleteTwice` | controllers/subscripsion.go:100-125 | each delete step is idempotent |
| `Database.UserById` | controllers/payment.go:155-160 | finds a user with the requested id, and finds none iff no user has it |
| `Database.UserByEmail` | middleware/check_role.go:30-34 | the first user with the email, and none iff no user has it |
| `Database.RoleById` | middleware/check_role.go:37-41 | finds a role with the id, and none iff no role has it |
| `StrConv.Atoi` | controllers/subscripsion.go:84-90 | a result exactly for an optional sign followed by decimal digits whose value fits in 64 bits, and then that value; text of at most 18 digits always fits |
| `StrConv.AtoiOfItoa` | controllers/subscripsion.go:84 | every 64-bit integer written in decimal is read back as itself |
| `Calendar.MonthStartIncreasing` | controllers/payment.go:113-119 | a later month starts at a later instant, so the expiry comparison is monotone in the month |
| `Calendar.MonthStartInjective` | controllers/payment.go:113-119 | two months that start at the same instant are the same month |
| `Common.TrimPrefix` | middleware/check_role.go:19 | with the prefix present, prefix followed by the result is the input; otherwise the input is returned as is |
| `Common.HasPrefix` | middleware/check_role.go:15 | `strings.HasPrefix`: the prefix is no longer than the header and agrees with it position by position |
| `Common.First` | middleware/check_role.go:30-34 | the row GORM's `First` returns: the first one in key order that matches, and none exactly when no row matches |
| `Subscriptions.FindKey` | controllers/subscripsion.go:37 | a numeric id finds the row with that key iff it is non-negative and stored; an empty id finds the lowest stored key iff the catalog is non-empty; other text finds nothing |
| `Subscriptions.FindStoredRow` | controllers/subscripsion.go:37 | every stored row is found by its id written in decimal |
| `Subscriptions.FindDeletedRow` | controllers/subscripsion.go:119 | once deleted, a row is not found by its id |
| `Subscriptions.SavedRowIsFound` | controllers/subscripsion.go:28-44 | after an accepted insert or save, a GET by the written key finds that row, as its columns store it |
| `Subscriptions.CreateSubscription` | controllers/subscripsion.go:19-31 | an undecodable body gives 400 "Invalid JSON" with no write; otherwise the table becomes what `Insert` gives, and 201 "Subscription created successfully" is sent with the Go value whether or not the insert was accepted |
| `Subscriptions.CreateSubscriptionChecked` | controllers/subscripsion.go:19-31 | as above, but 201 iff the key was never held, key and period fit a bigint and the text fits, with the row then stored under the returned key; else 500 "Failed to create subscription" with no visible row changed |
| `Subscriptions.DuplicateIdIsReportedCreated` | controllers/subscripsion.go:28-30 | a second create with an explicit id already in use is answered 201 with the new plan while the first plan stays stored; the checked handler answers 500 |
| `Subscriptions.GetSubscription` | controllers/subscripsion.go:33-44 | 404 "Subscription not found" iff the id finds no row; otherwise 200 with that row and no message |
| `Subscriptions.Merge` | controllers/subscripsion.go:69 | the id of the decoded row is the body's id when the body has one, and the stored row's otherwise |
| `Subscriptions.MergeOverwritesPresentFields` | controllers/subscripsion.go:69 | each field present in the body replaces the stored one; absent fields keep their stored value |
| `Subscriptions.MergeLaws` | controllers/subscripsion.go:69 | an empty body changes nothing; applying a body twice equals applying it once; two bodies in a row equal their combination |
| `Subscriptions.UpdateSubscription` | controllers/subscripsion.go:58-78 | 404 before the body is read when the id finds nothing; 400 "Invalid JSON" for a bad body; both without a write; otherwise the merged row, whose id the body may change, is saved as `Save` describes, and 200 "Subscription updated successfully" is sent with the Go value either way |
| `Subscriptions.UpdateSubscriptionChecked` | controllers/subscripsion.go:58-78 | as above, but only the row named in the query is written, whatever id the body carries; 200 iff the merged row fits its columns (id and period within a bigint, plan and status within their widths), else 500 "Failed to update subscription"; no other row, key or sequence value changes |
| `Subscriptions.OverlongPlanIsReportedUpdated` | controllers/subscripsion.go:76-77 | an update to a 101-character plan is answered 200 with the new plan while the old row stays stored; the checked handler answers 500 |
| `Subscriptions.BodyIdRetargetsUpdate` | controllers/subscripsion.go:69-77 | with rows 7 and 8 stored, `PUT ?id=7` with the body {"id": 8, "plan": "daily"} leaves row 7 alone, overwrites row 8 with row 7's other fields, and answers 200 |
| `Subscriptions.DeleteCascade` | controllers/subscripsion.go:100-125 | reports the refused statement, if any; with none refused, exactly the rows referring to the id and the entry itself are gone and nothing else changes |
| `Subscriptions.DeleteFailureMessage` | controllers/subscripsion.go:93-130 | each refused statement has its own message: starting the transaction, deleting the user subscriptions, the transactions, the plan, and committing |
| `Subscriptions.DeleteSubscription` | controllers/subscripsion.go:80-135 | a non-integer id gives 400 "Invalid subscription ID" with no change; a failing step gives 500 with that step's message and no change; otherwise the entry, its user subscriptions and its transactions are removed, all other rows are kept, and 200 is sent with the success message and no data |
| `Subscriptions.CascadeKeepsPurchases` | controllers/subscripsion.go:100-125 | the cascade keeps every completed transaction paired with a user subscription to the same entry |
| `CheckRole.DecideClaims` | middleware/check_role.go:21-50 | in order: a rejected token gives 401 "Unauthorized"; an unknown email 401 "User not found"; a missing role 403 "Role not found"; a different role code 403 "Forbidden: insufficient role permissions"; else the next handler runs |
| `CheckRole.Decide` | middleware/check_role.go:11-53 | a header without the exact prefix "Bearer " gives 401 "Unauthorized: Invalid token format"; otherwise the verifier sees the header after that prefix |
| `CheckRole.VerifierSeesToken` | middleware/check_role.go:15-22 | for "Bearer " followed by a token, the verifier is given exactly that token |
| `CheckRole.LowercaseSchemeRefused` | middleware/check_role.go:15-18 | the scheme is case-sensitive: "bearer " is refused before verification |
| `CheckRole.CallNextOnlyIfEntitled` | middleware/check_role.go:30-50 | the next handler runs only if the token verifies and some user with its email holds a role whose code is the required one |
| `CheckRole.CallNextIffEntitled` | middleware/check_role.go:30-50 | when emails and role ids are unique, the next handler runs exactly for such requests |

## Left out

- Receipt rendering (`generateFiscalReceiptPDF`, controllers/payment.go:39-83) is a parameter returning bytes or nothing. PDF layout and fonts are not modelled.
- Building and sending the email is not modelled byte by byte. A parameter answers with a failure at one of the named stages or an HTTP status. The multipart encoding, the 10-second timeout and closing the response body are not modelled.
- JSON decoding of request bodies is an `Option` of the decoded value: `None` means "Invalid JSON". Field-level type errors and unknown fields are not modelled.
- The environment variable EMAIL_SERVICE_URL is a string parameter.
- The clock is read once per request (`now`). The source calls `time.Now()` several times in one request; the model treats those readings as equal.
- Timestamps are integer instants. RFC 3339 formatting of user-subscription and transaction times is not modelled.
- `Payment.PeriodEnd` does not model Go's 64-bit `time.Duration` overflow for periods beyond about 106,000 days.
- `Payment.ParseExpiry`: a parse of "01/2006" yields the first instant of the month in UTC. Time zones are not modelled.
- `Subscriptions.FindKey` treats a non-empty, non-numeric `id` as finding nothing. GORM passes such text to the database as a raw SQL condition, and its result depends on the SQL; that path is not modelled.
- `Subscriptions.CreateSubscription`: the request body cannot set `deleted_at`. A body that carries a deletion time inserts a row that is soft-deleted from the start, holding its key but invisible to GET and PUT; the model stores it visible.
- `Subscriptions.CreateSubscriptionChecked`: as for `CreateSubscription`, a body with `deleted_at` is not modelled; for such a body the model's 201 leaves a visible row where the database holds a soft-deleted one.
- `Subscriptions.UpdateSubscription`: the request body cannot set `deleted_at`. A body that soft-deletes or revives a row through that field is not modelled.
- `Subscriptions.UpdateSubscriptionChecked`: as for `UpdateSubscription`, a body with `deleted_at` is not modelled.
- GORM soft delete is modelled as removal from the map. A soft-deleted catalog key stays in `catalogKeys`: an INSERT under it fails, while a save under it revives the row as GORM's upsert does.
- `Database.Save`: GORM's save with a non-zero key is modelled as its update followed, when no visible row matched, by an INSERT ... ON CONFLICT (id) DO UPDATE. The SQL text and hooks are not modelled. `created_at` and `updated_at` are strings in the Go struct, so GORM stamps neither; they are written exactly as the body gives them.
- Database write failures in the payment workflow (`Create` and `Save` there ignore errors) are not modelled. Those writes always succeed in the model.
- A failing `Commit` in `DeleteSubscription` is modelled as committing nothing: 500 with the store unchanged.
- GetAllSubscriptions (controllers/subscripsion.go:46-56) is a plain table read with no logic to model.
- Token parsing, signature checking and JWT claims are a verifier parameter (`TokenCheck`).
- http.Error's plain-text body, its trailing newline and the Content-Type headers are not modelled. A refusal is a status and a message.
- Rate limiting, routing, logging, database connection and migrations are not modelled. Neither is concurrency between requests: each handler runs alone on the store.

## Findings

| source | as written | input that shows it | evidently intended | confidence | as-written member | corrected member |
|---|---|---|---|---|---|---|
| controllers/subscripsion.go:28-30 | the error from `Create` is ignored and 201 "Subscription created successfully" is always sent, echoing the request | create `{id: 7, plan: "monthly"}`, then `{id: 7, plan: "yearly"}`: the second insert violates the primary key, yet it is answered 201 with the yearly plan while the monthly one stays stored | answer 500 when the row was not stored | not executed | `Subscriptions.DuplicateIdIsReportedCreated` | `Subscriptions.CreateSubscriptionChecked` |
| controllers/subscripsion.go:76-77 | the error from `Save` is ignored and 200 "Subscription updated successfully" is always sent, echoing the merged row | update a stored row with a plan of 101 characters: the varchar(100) column refuses it, yet it is answered 200 with the new plan while the old row stays stored | answer 500 when the row was not saved | not executed | `Subscriptions.OverlongPlanIsReportedUpdated` | `Subscriptions.UpdateSubscriptionChecked` |
| controllers/subscripsion.go:69-77 | the body is decoded into the fetched row, so an `id` in the body replaces the key, and `Save` writes the row under that other key | `PUT ?id=7` with `{"id": 8, "plan": "daily"}`: row 7 is unchanged, row 8 is overwritten with row 7's other fields, and the answer is 200 | write the row named in the query | not executed | `Subscriptions.BodyIdRetargetsUpdate` | `Subscriptions.UpdateSubscriptionChecked` |
