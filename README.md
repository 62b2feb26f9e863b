# marketplace — a verified model of the order, payment and cart core

This project models the back end of a small marketplace written in Go. It covers:

- the order workflow of `internal/order`. `CreateFromCart` turns a user's cart into an order. It runs an optional idempotency pre-check, reads the cart and the prices, and totals the lines. Then, in one transaction, it reserves stock line by line, writes the order and its lines, clears the cart, commits, and finally records the idempotency result. `GetOrder` reads one of the user's orders.
- the status lifecycle of `status.go`, and the administrative `Ship`, `Deliver` and `Cancel` of `service_admin.go`.
- the Postgres repositories behind them: orders, idempotency keys, payment intents and cart items.
- the payment service, which checks that the order is the user's own before it creates or confirms an intent.

The database is one class, `Database.Db`. It holds the tables as fields:

- `products`, `cartItems`, `orders`, `orderItems` and `intents` are the transactional tables;
- `idempotencyKeys` is the idempotency ledger;
- `nextId` is a shared id sequence, which is never rolled back;
- `failing` is the set of SQL statements that fail for infrastructure reasons. Every statement's error path can therefore be reached;
- `calls` is a ghost log of repository calls, in the shape of the mock expectations in `internal/order/service_test.go`.

A `Database.Tx` records the tables at `BEGIN`. A rollback, or a commit that fails, puts them back. The repositories are classes holding the shared `Db`, and their methods change exactly the fields their `modifies` clauses name.

The services are classes over those repositories.

- The full outcome of `CreateFromCart` is stated by ghost predicates over the tables before the call: `Prepare`, `Transacted` and `FromCart`. They give, for every set of statements that fail (each kind of statement either always fails or never fails during one call):
  - the returned id and error;
  - the tables after the call;
  - the ledger after the call;
  - the exact sequence of repository calls.
- Every error before the commit leaves the tables exactly as they were. The tables inside the transaction just before the rollback are stated too (`Staged`), as is the exact point where each failing step stops the calls (`StagedCalls`).

`Scenarios` replays the tests of `service_test.go` on a concrete database. It holds two cart lines (product 10 × 2 at 1000, product 20 × 1 at 2000). The replayed tests are:

- success with and without a key;
- the saved result replayed;
- the key that is busy without a result;
- the empty cart;
- too little stock on the first line.

It adds too little stock on the second line, a busy key that the intended ledger reports as a conflict error, cancelling a shipped order, and creating an intent for an order that was already moved on. The scenario methods carry no contract of their own. Their conclusions are the lemmas `CartPlaced`, `CartRefusedAtFirstLine` and `CartRefusedAtSecondLine`, plus asserts in their bodies.

Where the specification and the code differ, the model follows the code:

- `Deliver` moves an order to `"delivered"`. `status.go` declares no such status, and its table has `shipped -> completed` instead. So `Deliver` passes validation only for an order that is already `"delivered"`, and never for a shipped one (`OrderService.DeliverAllowedOnlyFromDelivered`).
- `TryStartIdempotent` never returns `ok = true` as written, so the keyed workflow never gets past the pre-check (see Findings). The ledger class carries both variants. `IdemRepo` with `AsWritten` is the code. `Intended` reports `ok` exactly when the insert took effect, and the keyed success scenario uses it.
- After a commit, a failure to save the idempotency result returns id 0 with an error, although the order stays placed and the cart stays cleared (`OrderService.Transacted`).

## Model

| member | source | states |
|---|---|---|
| OrderStatus.IsValidStatusTransition | internal/order/status.go:12-40 | a transition is valid exactly when it is a self-transition or one of the seven edges of the lifecycle |
| OrderStatus.SelfTransitionAlwaysValid | internal/order/status.go:31-33 | every status, known or not, may "move" to itself |
| OrderStatus.FromNew | internal/order/status.go:13-16 | from `new` only `awaiting_payment`, `cancelled` (and `new`) are allowed |
| OrderStatus.FromAwaitingPayment | internal/order/status.go:17-20 | from `awaiting_payment` only `paid`, `cancelled` (and itself) are allowed |
| OrderStatus.FromPaid | internal/order/status.go:21-24 | from `paid` only `shipped`, `cancelled` (and itself) are allowed |
| OrderStatus.FromShipped | internal/order/status.go:25-27 | from `shipped` only `completed` (and itself); a shipped order cannot be cancelled |
| OrderStatus.NoWayOutOfTerminalOrUnknown | internal/order/status.go:34-37 | `completed`, `cancelled` and any status outside the table allow no transition but the self-transition |
| OrderStatus.NothingLeadsIntoNew | internal/order/status.go:12-28 | no other status can move back to `new` |
| Database.RowsOf | internal/repository/postgres/order_repository.go:39-47 | the rows listed for a user are exactly the table rows of that user, never more rows than the table has |
| Database.WithoutUser | internal/repository/postgres/cart_repository.go:67-77 | the rows surviving a cart clear are exactly the rows of other users |
| Database.WithoutLine | internal/repository/postgres/cart_repository.go:55-65 | the rows surviving a line delete are exactly those that are not that user's rows for that product |
| Database.Tx.constructor | internal/repository/postgres/order_repository.go:31-37 | a new transaction is open and records the tables at `BEGIN` |
| Database.Tx.Commit | internal/repository/postgres/order_repository.go:23-25 | commits once; a failed commit restores the tables of `BEGIN`; a second commit reports the transaction done; the ledger and sequence are untouched |
| Database.Tx.Rollback | internal/repository/postgres/order_repository.go:27-29 | an open transaction is rolled back to its `BEGIN` tables; after a commit it only reports the transaction done and changes nothing |
| OrderRepository.PriceMapOfRows | internal/repository/postgres/order_repository.go:68-71 | the map filled from the price rows holds exactly the requested products that exist, each with its catalogue price |
| OrderRepository.DecrementTouchesOneRow | internal/repository/postgres/order_repository.go:77-81 | the stock update lowers one product's stock by the quantity and changes nothing else |
| OrderRepository.DecrementKeepsStockNonNegative | internal/repository/postgres/order_repository.go:80 | the `stock >= quantity` guard keeps every stock non-negative |
| OrderRepository.OrderRepo.constructor | internal/repository/postgres/order_repository.go:15-17 | the repository works on the given database |
| OrderRepository.OrderRepo.BeginTx | internal/repository/postgres/order_repository.go:31-37 | either an error and no transaction, or a fresh open transaction over the current tables |
| OrderRepository.OrderRepo.GetCartItemsForUser | internal/repository/postgres/order_repository.go:39-47 | the product and quantity of each of the user's cart rows, in table order, or the read error |
| OrderRepository.OrderRepo.GetProductsPrices | internal/repository/postgres/order_repository.go:49-73 | an empty id list is an error; otherwise the map holds exactly the requested existing products and their prices |
| OrderRepository.OrderRepo.DecrementStock | internal/repository/postgres/order_repository.go:75-93 | succeeds exactly when the product exists with enough stock, and then lowers only that stock; no row affected is `sql.ErrNoRows` |
| OrderRepository.OrderRepo.CreateOrder | internal/order/service.go:20 | a successful insert adds one order under a positive id not used before; an error adds nothing and returns id 0 |
| OrderRepository.OrderRepo.BulkInsertItems | internal/order/service.go:21 | the order's lines are stored under its id, or nothing changes |
| OrderRepository.OrderRepo.ClearCart | internal/order/service.go:22 | all of the user's cart rows are deleted, other users' rows kept in order, or nothing changes |
| OrderRepository.OrderRepo.GetOrderStatus | internal/order/service.go:25 | the stored status of the order; a missing order is `sql.ErrNoRows` |
| OrderRepository.OrderRepo.UpdateOrderStatus | internal/order/service.go:26 | compare-and-set: the status changes to `to` only while it is still `from`; otherwise nothing changes |
| OrderRepository.OrderRepo.GetOrderWithItems | internal/order/service.go:24 | an order is returned only when it exists and belongs to the user |
| IdempotencyRepository.InsertIfAbsent | internal/repository/postgres/idempotency_repository.go:20-24 | `ON CONFLICT DO NOTHING`: only a fresh key is added, as an unfinished row, and existing rows never change |
| IdempotencyRepository.AsWrittenNeverStarts | internal/repository/postgres/idempotency_repository.go:19-44 | as written, the reply is never `ok`, whatever the ledger holds |
| IdempotencyRepository.AsWrittenFreshKeyConflicts | internal/repository/postgres/idempotency_repository.go:40-43 | as written, the call that inserts a fresh key reports an idempotency conflict |
| IdempotencyRepository.IntendedStartsExactlyOnFreshKey | internal/repository/postgres/idempotency_repository.go:20-28 | in the intended ledger, the reply is `ok` exactly when the key was fresh |
| IdempotencyRepository.KeyedByKeyAlone | internal/repository/postgres/idempotency_repository.go:31-35 | an existing key is answered from its row, whichever user or request hash asks |
| IdempotencyRepository.SaveTouchesOneRow | internal/repository/postgres/idempotency_repository.go:46-53 | saving a result changes only the row of that key and adds no key |
| IdempotencyRepository.SavedResultIsReplayed | internal/repository/postgres/idempotency_repository.go:40-41 | after a result is saved, the next start with that key reports exactly that status and order id, without error |
| IdempotencyRepository.IdemRepo.constructor | internal/repository/postgres/idempotency_repository.go:15-17 | the ledger works on the given database, in the given variant |
| IdempotencyRepository.IdemRepo.TryStartIdempotent | internal/repository/postgres/idempotency_repository.go:19-44 | the reply is the one the ledger specification gives; the ledger afterwards holds the key, unless the insert failed |
| IdempotencyRepository.IdemRepo.SaveIdempotentResult | internal/repository/postgres/idempotency_repository.go:46-53 | the key's row records the status and order id, or the update error leaves the ledger unchanged |
| OrderService.FirstUnpriced | internal/order/service_impl.go:60-64 | the first cart line whose product has no price; all lines before it are priced |
| OrderService.PricedFollowsCart | internal/order/service_impl.go:59-71 | the order lines are the cart lines in cart order, each with the price read before the transaction |
| OrderService.TotalNonNegative | internal/order/service_impl.go:58-71 | non-negative prices and quantities give a non-negative total |
| OrderService.PreparedOrderMatchesCart | internal/order/service_impl.go:43-71 | a prepared order comes from a non-empty cart, has one line per cart line priced from the catalogue, and totals them |
| OrderService.PreparedTotalNonNegative | internal/order/service_impl.go:57-71 | when catalogue prices and cart quantities are non-negative, the total an order is created with is non-negative |
| OrderService.StagedBeforeCommitIsPlaced | internal/order/service_impl.go:78-105 | once every step before the commit has succeeded, the staged tables are those of a placed order and the calls so far plus the commit are exactly the calls of a successful transaction |
| OrderService.UnknownProductStopsBeforeTransaction | internal/order/service_impl.go:60-64 | a cart product missing from the catalogue stops the workflow with "price not found" before any transaction |
| OrderService.ReservedStock | internal/order/service_impl.go:78-83 | a full reservation takes from each product exactly the quantity its lines ask for, keeps prices, and keeps valid stock non-negative |
| OrderService.ShortageAt | internal/order/service_impl.go:79-82 | the reservation stops at a line of the order |
| OrderService.ShortageIsFirstFailure | internal/order/service_impl.go:79-82 | when the lines before line `i` succeed and line `i` fails, line `i` is where the reservation stops |
| OrderService.ReservableStep | internal/order/service_impl.go:79-83 | one more successful decrement extends the reservation by that line |
| OrderService.FailIndex | internal/order/service_impl.go:79-82 | the failing line is a line of the order |
| OrderService.ShortcutReturnsOnlyCompletedResults | internal/order/service_impl.go:29-37 | the pre-check returns a saved order id only for a saved `201 Created` with a non-zero id, never an id together with an error; otherwise it reports the conflict or wraps the ledger error |
| OrderService.RejectedTransitionChangesNothing | internal/order/service_admin.go:27-29 | a transition the table refuses is reported as `ErrInvalidStatusTransition` and leaves the orders unchanged |
| OrderService.SuccessfulChangeFollowsTable | internal/order/service_admin.go:21-31 | a successful status change moved an existing order along a valid transition and changed nothing else |
| OrderService.CancelAllowedFrom | internal/order/service_admin.go:45-55 | `Cancel` passes validation exactly from `new`, `awaiting_payment`, `paid` and `cancelled` |
| OrderService.ShipAllowedFrom | internal/order/service_admin.go:21-31 | `Ship` passes validation exactly from `paid` and `shipped` |
| OrderService.DeliverAllowedOnlyFromDelivered | internal/order/service_admin.go:33-43 | `Deliver` passes validation only from `"delivered"` itself, never from `shipped` |
| OrderService.Service.constructor | internal/order/service_impl.go:16-18 | the service holds the given repository and the optional ledger |
| OrderService.Service.CollectProductIds | internal/order/service_impl.go:49-52 | one product id per cart line, in cart order |
| OrderService.Service.BuildOrderItems | internal/order/service_impl.go:57-71 | either the first unpriced product is reported, or every line is priced and the total is their sum |
| OrderService.Service.PrepareOrder | internal/order/service_impl.go:43-71 | the outcome and the calls of reading and pricing the cart are those `Prepare` and `PrepareCalls` give |
| OrderService.Service.ReserveStock | internal/order/service_impl.go:78-83 | either every line is reserved, or the loop stops at the first failing line after one decrement per line up to it, with exactly the lines before it reserved |
| OrderService.Service.WriteOrder | internal/order/service_impl.go:84-101 | the order header and its lines are written under the next sequence id and the user's cart is cleared, or the first failing step is reported; after each failing step the tables, the sequence and the calls are exactly those of the steps before it |
| OrderService.Service.WriteAndCommit | internal/order/service_impl.go:84-105 | the writes, then the commit only when every write succeeded; an open transaction holds the writes up to the failing one, a failed commit restores the tables of `BEGIN` |
| OrderService.Service.PlaceOrder | internal/order/service_impl.go:78-105 | a committed order leaves the tables in the `Placed` state with exactly the transaction's calls; every error returns id 0; an error before the commit leaves the transaction open with the `Staged` tables and calls, a failed commit leaves the tables of `BEGIN` |
| OrderService.Service.Transact | internal/order/service_impl.go:72-111 | every failure before the commit leaves the tables as they were and ends the calls with the rollback; success leaves the order placed under the next sequence id and the result saved (when keyed) |
| OrderService.Service.Complete | internal/order/service_impl.go:77-111 | after `BEGIN`: the outcome, tables, ledger and calls `Transacted` states, with the deferred rollback after every error |
| OrderService.Service.Record | internal/order/service_impl.go:106-111 | after the commit only the ledger changes, and only when keyed; the deferred rollback changes no table |
| OrderService.Service.CreateChecked | internal/order/service_impl.go:43-111 | the outcome, tables, ledger and calls of everything after the pre-check are those `FromCart` states |
| OrderService.Service.CreateFromCart | internal/order/service_impl.go:25-112 | an error always comes with id 0 and success with a non-zero id; a pre-check that does not let the request through changes no table and makes one call; otherwise the outcome is the one `FromCart` states; with the ledger as written a keyed request never changes a table |
| OrderService.Service.GetOrder | internal/order/service_impl.go:118-120 | an order is returned exactly when it exists, belongs to the user and the read works |
| OrderService.Service.RepoStatus | internal/order/service_admin.go:57-66 | the order's status; "no rows" becomes `ErrOrderNotFound`; other errors pass through |
| OrderService.Service.MoveTo | internal/order/service_admin.go:21-31 | read, validate, then compare-and-set from the status read, with no update call when validation fails |
| OrderService.Service.Ship | internal/order/service_admin.go:21-31 | the status change to `shipped` as `StatusChange` states, with no update call when validation fails |
| OrderService.Service.Deliver | internal/order/service_admin.go:33-43 | the status change to `"delivered"` as `StatusChange` states, with no update call when validation fails |
| OrderService.Service.Cancel | internal/order/service_admin.go:45-55 | the status change to `cancelled` as `StatusChange` states, with no update call when validation fails |
| PaymentRepository.HexDigit | internal/repository/postgres/payment_repository.go:27 | every digit is lower-case hexadecimal |
| PaymentRepository.Hex | internal/repository/postgres/payment_repository.go:27 | the encoding is twice as long as the bytes and all lower-case hex |
| PaymentRepository.HexDigitValue | internal/repository/postgres/payment_repository.go:27 | a hex digit reads back as its value |
| PaymentRepository.HexRoundTrip | internal/repository/postgres/payment_repository.go:27 | decoding the secret gives back the random bytes it was made from |
| PaymentRepository.RandSecret | internal/repository/postgres/payment_repository.go:22-28 | succeeds exactly when the random source yields n bytes, and then returns their 2n-character hex encoding |
| PaymentRepository.CreatedIntentShape | internal/repository/postgres/payment_repository.go:30-50 | an intent is created only for a `new` order, with a 32-character lower-case hex secret, along a valid transition |
| PaymentRepository.FirstPending | internal/repository/postgres/payment_repository.go:60-66 | the first intent matching the confirmation's `WHERE` clause, or the end when none matches |
| PaymentRepository.ConfirmedIntentsHavePaidOrders | internal/repository/postgres/payment_repository.go:52-90 | a committed confirmation only turns pending intents of the order into `succeeded`, and that order is then `paid` |
| PaymentRepository.ConfirmTouchesOnlyPending | internal/repository/postgres/payment_repository.go:60-64 | the update changes only the status, and only of matching pending intents |
| PaymentRepository.ConfirmedLeavesNothingPending | internal/repository/postgres/payment_repository.go:60-64 | a second confirmation with the same secret finds nothing left to confirm |
| PaymentRepository.PaymentRepo.constructor | internal/repository/postgres/payment_repository.go:18-20 | the repository works on the given database |
| PaymentRepository.PaymentRepo.CreateIntent | internal/repository/postgres/payment_repository.go:30-50 | either the order moves `new -> awaiting_payment` and one intent for its stored total is appended under a fresh id, or neither happens |
| PaymentRepository.PaymentRepo.ConfirmIntent | internal/repository/postgres/payment_repository.go:52-90 | either the intents are confirmed and the order paid together, or the tables are exactly as before; the calls are those `ConfirmCalls` gives |
| PaymentRepository.PaymentRepo.ConfirmInTx | internal/repository/postgres/payment_repository.go:59-89 | inside the transaction: the two updates and the commit, with the error `ConfirmError` gives and the first confirmed row returned; an error before the commit leaves the transaction open with the intents confirmed only when the intent update ran |
| PaymentService.ForeignOrderRefused | internal/payment/service.go:26-39 | another user's order never passes the ownership check |
| PaymentService.Service.constructor | internal/payment/service.go:22-24 | the service holds the given repositories |
| PaymentService.Service.CreateIntent | internal/payment/service.go:26-32 | an order that is not the user's is refused with no table changed; otherwise the repository's intent creation, unchanged |
| PaymentService.Service.Confirm | internal/payment/service.go:34-39 | an order that is not the user's is refused with no table changed; otherwise the repository's confirmation, unchanged |
| CartRepository.ClearIsIdempotent | internal/repository/postgres/cart_repository.go:67-77 | clearing a cart twice is clearing it once |
| CartRepository.RemoveIsIdempotent | internal/repository/postgres/cart_repository.go:55-65 | removing a line twice is removing it once |
| CartRepository.ClearedCartListsEmpty | internal/repository/postgres/cart_repository.go:42-77 | after a clear the user's listing is empty |
| CartRepository.ClearKeepsOtherCarts | internal/repository/postgres/cart_repository.go:67-77 | clearing one cart leaves every other user's listing exactly as it was, in order |
| CartRepository.RemoveKeepsOtherCarts | internal/repository/postgres/cart_repository.go:55-65 | removing one user's line leaves every other user's listing exactly as it was |
| CartRepository.AddedRowListedLast | internal/repository/postgres/cart_repository.go:19-53 | an added row is listed after the user's earlier rows, even for a product already in the cart |
| CartRepository.SurvivorsKeepIds | internal/repository/postgres/cart_repository.go:55-77 | rows surviving a delete keep ids that the sequence handed out |
| CartRepository.CartRepo.constructor | internal/repository/postgres/cart_repository.go:15-17 | the repository works on the given database |
| CartRepository.CartRepo.AddItem | internal/repository/postgres/cart_repository.go:19-40 | a successful insert appends one row under a positive id no existing row has; an error adds nothing and returns id 0 |
| CartRepository.CartRepo.ListItems | internal/repository/postgres/cart_repository.go:42-53 | the user's rows in table order, or the wrapped read error and nothing |
| CartRepository.CartRepo.RemoveItem | internal/repository/postgres/cart_repository.go:55-65 | deletes exactly the user's rows for the product, or nothing on error; deleting nothing is not an error |
| CartRepository.CartRepo.Clear | internal/repository/postgres/cart_repository.go:67-77 | deletes exactly the user's rows, or nothing on error; an empty cart is not an error |
| Scenarios.CartScenario | internal/order/service_test.go:110-118 | the two-line cart is read as lines (10, 2), (20, 1), priced at 1000 and 2000 to a total of 4000, with the two expected read calls |
| Scenarios.CartReservation | internal/order/service_test.go:120-121 | with enough stock both decrements succeed, in order |
| Scenarios.CartShortage | internal/order/service_impl.go:78-83 | with no stock for product 20 the reservation stops at the second line |
| Scenarios.CartShortAtFirstLine | internal/order/service_test.go:251-252 | with too little stock for product 10 the reservation stops at the first line, after one decrement call |
| Scenarios.CartPlaced | internal/order/service_test.go:104-177 | the successful run: order `new` with total 4000 and both lines, stock reduced by 2 and 1, cart emptied, result saved when keyed, and exactly the calls the test expects |
| Scenarios.CartRefusedAtFirstLine | internal/order/service_test.go:236-260 | too little stock on line one: id 0, a stock error for product 10, tables unchanged, calls end with one decrement and the rollback |
| Scenarios.CartRefusedAtSecondLine | internal/order/service_impl.go:78-83 | too little stock on line two: id 0, a stock error for product 20, the first decrement rolled back too |

The scenario methods replay these tests:

- `Scenarios.SuccessWithoutKey` replays `internal/order/service_test.go:104-136`.
- `Scenarios.SuccessWithKeyThenReplay` replays `internal/order/service_test.go:138-177`, then repeats the call with the same key. The second call returns the same id and changes no table.
- `Scenarios.AsWrittenLedgerRefusesFreshKey` is the first keyed call against the ledger as written.
- `Scenarios.SecondCallReturnsSaved` replays `internal/order/service_test.go:179-197`.
- `Scenarios.ConflictWhenKeyBusy` replays `internal/order/service_test.go:199-217`: the ledger answers `(false, 0, 0)` without error, and the call returns the bare `ErrIdempotencyConflict`.
- `Scenarios.EmptyCartFails` replays `internal/order/service_test.go:219-234`.
- `Scenarios.StockFailsOnFirstLine` replays `internal/order/service_test.go:236-260`.
- `Scenarios.StockFailsOnSecondLine`, `Scenarios.UnfinishedKeyReportedByLedger`, `Scenarios.CancelShippedFails` and `Scenarios.IntentForPaidOrderFails` go beyond the tests. In `UnfinishedKeyReportedByLedger` the ledger itself reports the conflict as an error, which the service wraps.

## Left out

- OrderService.Total: prices and totals are unbounded integers. The `int64` overflow of `totalAmount += price * quantity` is not modelled, and neither is the `int` width of quantities.
- OrderService.HashRequest: the request fingerprint is the text `create_order:<id>` that the source hashes. The SHA-256 digest and its hex encoding are not modelled, because only equality of fingerprints matters to the ledger, and the as-written ledger never compares them.
- PaymentRepository.RandSecret: the system's random source is an input sequence of bytes. A source that yields too few bytes stands for `rand.Read` failing.
- Concurrency is not modelled: two requests racing on one key, the `READ COMMITTED` isolation level, and row locks. Every operation runs alone, and `context.Context` cancellation is not modelled either.
- Timestamps (`created_at`, `updated_at`, `NOW()`) are not modelled, because no operation reads them.
- `repoStatus` has a branch for a repository that cannot read statuses. It is not modelled, because the one repository in the system can read them.
- SQL returns rows in an unspecified order. The model takes table order wherever the source reads several rows: the cart lines, the price rows, and the first confirmed intent.
- `RowsAffected` and `Scan` driver errors are not modelled, and neither is the `AddItem` branch where `RETURNING id` yields no row. These are failures of the driver, not of the statement.
- `ListOrders` is not part of this model. It hands over to `GetUserOrders`, whose SQL is not among the modelled files.
- The cart service, HTTP handlers, middleware, authentication and the user and product modules are not part of this model.
- OrderRepository.OrderRepo.CreateOrder, BulkInsertItems, ClearCart, GetOrderStatus, UpdateOrderStatus and GetOrderWithItems: their SQL is not among the modelled files. They are given the plain table semantics that their names and `service.go:20-26` describe. `UpdateOrderStatus` is a compare-and-set on the `from` status, and `GetOrderWithItems` filters by owner.
- Failures are injected per kind of statement: each kind either fails every time it runs during a call or never does. A run where the same statement succeeds once and then fails (a second `DecrementStock` failing after the first succeeded for an infrastructure reason) is not modelled; a stock shortage on a later line is, since it depends on the tables.
- The empty `defer func() {}()` inside the idempotency branch does nothing and is not modelled.

## Findings

| source | as written | input that shows it | evidently intended | confidence | as-written member | corrected member |
|---|---|---|---|---|---|---|
| internal/repository/postgres/idempotency_repository.go:40-43 | `ok` is never returned true. A key that was just inserted has no saved order id, so the call reports `ErrIdempotencyConflict`, and `CreateFromCart` with a key never places an order. | a fresh key `"k1"`, an empty ledger and no failing statement: the reply is `(false, 0, 0, ErrIdempotencyConflict)` | `ok = true` exactly when the insert took effect (the key was fresh), which is what `service_test.go:153` mocks | not executed | IdempotencyRepository.AsWrittenFreshKeyConflicts | IdempotencyRepository.IntendedStartsExactlyOnFreshKey |
