# l0-order-service, modelled in Dafny

The order service takes orders from a Kafka topic and stores them in
PostgreSQL. An order message is decoded and validated. The order is then
written in one transaction, as a header row, a delivery row, a payment row and
its item rows, and a failed attempt is retried with exponential backoff. A
message that cannot be handled goes to a dead-letter topic. The repository can
read an order back from the four tables; the service's `GetOrderByID` is still a
stub. `pkg/cache` provides a bounded LRU cache with expiring entries, which the
service does not use yet.

This project models the core of that service and proves properties of the
model. There is one module per source file:

| module | file | models |
|---|---|---|
| `Errors` | (Go's `errors`) | error values, `%w` wrapping, `errors.Is` |
| `Entities` | internal/entities/entities.go | the order aggregate and `time.Time` |
| `RepoModels` | internal/repo/models.go | the row types and the row-to-entity converters |
| `SqlDb` | (database/sql as the repository uses it) | the four tables, insert-if-absent, the pool, transactions |
| `Trm` | pkg/trm/manager.go | the transaction key in a context, `BeginTx`, `Do` |
| `Postgres` | internal/repo/postgres.go | the four inserts, `GetOrder`, `execContext` and `getContext` |
| `HandlerModels` | internal/handler/models.go | the JSON message shape and its converters |
| `Retry` | pkg/utils/retry.go | `Retry` with defaults and capped exponential backoff |
| `Cache` | pkg/cache/cache.go | the LRU cache with TTL, as a class over a sequence and a map |
| `OrderService` | internal/service/order.go | `SaveOrder`: retried transactional writes; `GetOrderByID` |
| `Kafka` | internal/handler/kafka.go | the consumer loop, dead-lettering, `Close` |

The environment is handed in explicitly. The clock is a parameter `now`. The
outcome of each driver call, each broker call, the JSON decoder, the validator
and the saver is an explicit argument, such as `fault`, `script` or `Fetch`.
Ghost logs record the calls made, so their order can be stated.

Where the code does something its own documentation does not lead one to
expect, the model follows the code:

- `SaveOrder` writes the four parts one after another and stops at the first failure.
- `cleanup` walks the whole list rather than stopping at the first live entry.
- `Close` leaves the dead-letter writer open when closing the reader fails.
- The first backoff delay is not capped by `MaxDelay`; only the later ones are.
- A cache with capacity 0 or less stays empty, because every new entry is evicted at once.
- `GetOrder` reads only the `orders` row through the context's transaction. The delivery, payment and item queries always go to the pool.
- In `GetOrder`, a missing delivery or payment row is returned as `sql.ErrNoRows`. Only a missing `orders` row becomes `ErrOrderNotFound`.

## Model

| member | source | states |
|---|---|---|
| Errors.Wrap | internal/service/order.go:38-49 | `fmt.Errorf("...: %w", err)` produces a new error that `errors.Is` still matches against every target the cause matched |
| Entities.FromUnix | internal/handler/models.go:112 | `time.Unix(s, 0)` is a time with no nanoseconds (every `Time` keeps its nanoseconds below one second), and its `Unix()` is `s` again |
| RepoModels.NullStringToString | internal/repo/models.go:134-139 | NULL reads as "" and a valid value as its payload |
| RepoModels.NullInt32ToInt | internal/repo/models.go:141-146 | NULL reads as 0 and a valid value as its payload; the result is always within 32 bits |
| RepoModels.ItemsToEntity | internal/repo/models.go:124-129 | one entity per row, in row order, each converted by `ItemToEntity` |
| RepoModels.DeliveryToEntity | internal/repo/models.go:64-74 | no contract of its own: field-by-field copy with NULL read as ""; see `Postgres.DeliveryRoundTrip` and `Postgres.AssembleMatchesOrderToEntity` |
| RepoModels.PaymentToEntity | internal/repo/models.go:76-89 | no contract of its own; see `Postgres.PaymentRoundTrip` and `Postgres.AssembleMatchesOrderToEntity` |
| RepoModels.ItemToEntity | internal/repo/models.go:91-105 | no contract of its own; see `Postgres.ItemRoundTrip` and `RepoModels.ItemsToEntity` |
| RepoModels.OrderToEntity | internal/repo/models.go:107-132 | the header fields are copied or NULL-defaulted field by field; delivery and payment go through their converters; items are empty for no rows, otherwise one per row, in order |
| SqlDb.InsertItemRows | internal/repo/postgres.go:203-224 | a multi-row insert with `ON CONFLICT (rid) DO NOTHING` keeps the existing rows as a prefix, and changes nothing when every row's key is already present |
| SqlDb.InsertItemRowsFacts | internal/repo/postgres.go:203-224 | after the insert every row's `rid` is present, the added rows all come from the statement, and the unique index on `rid` is kept |
| SqlDb.InsertFreshRows | internal/repo/postgres.go:203-224 | rows whose keys are new and pairwise distinct are appended exactly, in order |
| SqlDb.ApplyIdempotent | internal/repo/postgres.go:142-230 | each of the four inserts does nothing on conflict, so issuing it twice is issuing it once |
| SqlDb.ApplyKeepsRows | internal/repo/postgres.go:142-230 | an insert never removes or changes an existing row, and it keeps `rid` unique |
| SqlDb.SelectRow | internal/repo/postgres.go:60-94 | `GetContext` on a table keyed by `order_uid` gives a driver error, `sql.ErrNoRows` for a missing key, or the row |
| SqlDb.RowsOf | internal/repo/postgres.go:109-120 | `WHERE order_uid = $1` returns exactly the matching rows, in table order |
| SqlDb.SelectItems | internal/repo/postgres.go:117-120 | `SelectContext` gives the driver error or the matching rows |
| SqlDb.Database.Exec | internal/repo/postgres.go:251 | a statement on the pool takes effect unless the driver fails |
| SqlDb.Tx.Begin | pkg/trm/manager.go:44 | a new transaction is active, has made no calls yet, and sees the pool's tables |
| SqlDb.Tx.Exec | internal/repo/postgres.go:249 | inside an active transaction a statement changes only the transaction's view; after the end it is refused with `sql.ErrTxDone` |
| SqlDb.Tx.SelectOrder | internal/repo/postgres.go:257 | a read inside the transaction sees its own writes; after the end it gets `sql.ErrTxDone` |
| SqlDb.Tx.Commit | pkg/trm/manager.go:61 | a successful commit installs the view; a failed one ends the transaction and leaves the tables as they were; a second call gets `sql.ErrTxDone` |
| SqlDb.Tx.Rollback | pkg/trm/manager.go:56 | rolls back an active transaction; on an ended one it only reports `sql.ErrTxDone` |
| Trm.WithTx | pkg/trm/manager.go:16-18 | `ExtractTx` finds the stored transaction in the new context and in a context derived from it by one layer |
| Trm.WithTxDerived | pkg/trm/manager.go:16-26 | `ExtractTx` finds the stored transaction through any number of derived layers that store no transaction |
| Trm.ExtractTxNil | pkg/trm/manager.go:20-26 | `ExtractTx` returns nil exactly when no layer of the context stores a transaction |
| Trm.ExtractTx | pkg/trm/manager.go:20-26 | no contract of its own; see `Trm.ExtractTxNil`, `Trm.WithTx` and `Trm.WithTxDerived` |
| Trm.Manager.BeginTx | pkg/trm/manager.go:43-49 | a failure returns the error and no context or transaction; success returns a fresh active transaction and a context that carries it |
| Trm.Manager.Do | pkg/trm/manager.go:51-62 | a failed begin is returned and the callback never runs; a callback error is returned, nothing is committed and only the deferred rollback runs; otherwise the commit's result is returned, the rollback follows the commit, and the tables are the callback's writes exactly when the commit succeeded |
| Postgres.ToInt32 | internal/repo/postgres.go:243 | `int32(i)` is `i` inside the 32-bit range and equals `i` modulo 2^32 |
| Postgres.NullStringOf | internal/repo/postgres.go:232-237 | "" is stored as NULL, and the stored value reads back as the original string |
| Postgres.NullInt32Of | internal/repo/postgres.go:239-244 | 0 is stored as NULL and other values as `int32(i)`; the value reads back unchanged exactly when it fits in 32 bits |
| Postgres.NullInt32Truncates | internal/repo/postgres.go:239-244 | no value outside the 32-bit range reads back as itself; values 2^32 apart are stored alike; 2^32 is stored as a valid 0 |
| Postgres.ItemRowsOf | internal/repo/postgres.go:207-222 | one row per item, in order, each tagged with the order's uid and keeping the item's `rid` |
| Postgres.OrderRowOf | internal/repo/postgres.go:149-153 | no contract of its own: the `orders` insert's values; see `Postgres.OrderHeaderRoundTrip` |
| Postgres.DeliveryRowOf | internal/repo/postgres.go:165-173 | no contract of its own: the `deliveries` insert's values; see `Postgres.DeliveryRoundTrip` |
| Postgres.PaymentRowOf | internal/repo/postgres.go:186-189 | no contract of its own: the `payments` insert's values; see `Postgres.PaymentRoundTrip` |
| Postgres.ItemRowOf | internal/repo/postgres.go:208-221 | no contract of its own: one row of the `items` insert; see `Postgres.ItemRoundTrip` and `Postgres.ItemRowsOf` |
| Postgres.OrderHeaderRoundTrip | internal/repo/postgres.go:142-160 | a stored header reads back, through `OrderToEntity`, as the order's own header fields |
| Postgres.DeliveryRoundTrip | internal/repo/postgres.go:162-180 | a stored delivery reads back unchanged |
| Postgres.PaymentRoundTrip | internal/repo/postgres.go:182-196 | a stored payment reads back unchanged when its custom fee fits in 32 bits |
| Postgres.ItemRoundTrip | internal/repo/postgres.go:207-222 | a stored item reads back unchanged when its sale fits in 32 bits |
| Postgres.HeaderFromRow | internal/repo/postgres.go:46-58 | the header `GetOrder` builds inline agrees with `OrderToEntity` on rows as the database returns them |
| Postgres.DeliveryFromRow | internal/repo/postgres.go:73-81 | the inline delivery agrees with `DeliveryToEntity` on scanned rows |
| Postgres.PaymentFromRow | internal/repo/postgres.go:96-107 | the inline payment agrees with `PaymentToEntity` on scanned rows |
| Postgres.ItemFromRow | internal/repo/postgres.go:124-136 | the inline item agrees with `ItemToEntity` on scanned rows |
| Postgres.ItemsFromRows | internal/repo/postgres.go:122-137 | one item per fetched row, in row order |
| Postgres.NotFoundMapping | internal/repo/postgres.go:39-94 | a header error that is `sql.ErrNoRows` becomes `ErrOrderNotFound` and any other is returned as it is; a missing delivery or payment row is returned as `sql.ErrNoRows`; conversely, when no driver failure is itself `ErrOrderNotFound`, that error comes only from a missing `orders` row |
| Postgres.AssembleOrder | internal/repo/postgres.go:26-140 | no contract of its own: `GetOrder` as a function of what its queries return; see `Postgres.NotFoundMapping`, `Postgres.AssembleMatchesOrderToEntity` and `Postgres.PostgresRepo.GetOrder` |
| Postgres.AssembleMatchesOrderToEntity | internal/repo/postgres.go:46-137 | when every query succeeds, `GetOrder` builds the same order as `OrderToEntity` on the fetched rows |
| Postgres.PostgresRepo.ExecContext | internal/repo/postgres.go:246-252 | the statement runs on the context's transaction when there is one, leaving the pool alone; otherwise it runs on the pool |
| Postgres.PostgresRepo.SaveOrder | internal/repo/postgres.go:142-160 | issues exactly the insert-if-absent of the order's header row |
| Postgres.PostgresRepo.SaveDelivery | internal/repo/postgres.go:162-180 | issues exactly the insert-if-absent of the delivery row |
| Postgres.PostgresRepo.SavePayment | internal/repo/postgres.go:182-196 | issues exactly the insert-if-absent of the payment row |
| Postgres.PostgresRepo.SaveItems | internal/repo/postgres.go:198-230 | an empty slice issues nothing and succeeds; otherwise issues one multi-row insert, one row per item, in order |
| Postgres.PostgresRepo.GetContext | internal/repo/postgres.go:254-260 | the `orders` lookup goes through the context's transaction when there is one, otherwise to the pool |
| Postgres.PostgresRepo.OrderHeader | internal/repo/postgres.go:39-44 | no contract of its own: the `orders` lookup through the context's transaction or the pool; see `Postgres.PostgresRepo.GetContext` |
| Postgres.PostgresRepo.GetOrder | internal/repo/postgres.go:26-140 | returns the header lookup (with the not-found mapping), then the pool's delivery, payment and item rows, stopping at the first error with the order built so far |
| HandlerModels.ItemsEntityToJSON | internal/handler/models.go:153-156 | one JSON item per entity, in order |
| HandlerModels.ItemsJSONToEntity | internal/handler/models.go:177-180 | one entity per JSON item, in order |
| HandlerModels.DeliveryEntityToJSON | internal/handler/models.go:66-76 | no contract of its own; see `HandlerModels.DeliveryRoundTrips` |
| HandlerModels.DeliveryJSONToEntity | internal/handler/models.go:78-88 | no contract of its own; see `HandlerModels.DeliveryRoundTrips` |
| HandlerModels.PaymentEntityToJSON | internal/handler/models.go:90-103 | no contract of its own; see `HandlerModels.PaymentEntityRoundTrip` and `HandlerModels.PaymentJSONRoundTrip` |
| HandlerModels.PaymentJSONToEntity | internal/handler/models.go:105-118 | no contract of its own; see `HandlerModels.PaymentJSONRoundTrip` and `HandlerModels.PaymentEntityRoundTrip` |
| HandlerModels.ItemEntityToJSON | internal/handler/models.go:120-134 | no contract of its own; see `HandlerModels.ItemRoundTrips` |
| HandlerModels.ItemJSONToEntity | internal/handler/models.go:136-150 | no contract of its own; see `HandlerModels.ItemRoundTrips` |
| HandlerModels.OrderEntityToJSON | internal/handler/models.go:152-174 | no contract of its own; see `HandlerModels.OrderEntityRoundTrip` |
| HandlerModels.OrderJSONToEntity | internal/handler/models.go:176-198 | no contract of its own; see `HandlerModels.OrderJSONRoundTrip` and `Kafka.SavedOrdersDecoded` |
| HandlerModels.DeliveryRoundTrips | internal/handler/models.go:66-88 | the delivery converters are inverse to each other |
| HandlerModels.ItemRoundTrips | internal/handler/models.go:120-150 | the item converters are inverse to each other |
| HandlerModels.PaymentJSONRoundTrip | internal/handler/models.go:90-118 | a JSON payment survives entity and back, Unix seconds included |
| HandlerModels.PaymentEntityRoundTrip | internal/handler/models.go:90-118 | an entity payment comes back with its timestamp cut to the whole second, so it comes back unchanged exactly when it had no nanoseconds |
| HandlerModels.OrderJSONRoundTrip | internal/handler/models.go:152-198 | JSON to entity and back is the identity on whole orders |
| HandlerModels.OrderEntityRoundTrip | internal/handler/models.go:152-198 | entity to JSON and back changes only the payment timestamp's nanoseconds |
| Retry.WithDefaults | pkg/utils/retry.go:15-23 | 3 attempts, multiplier 2 and 100ms replace non-positive values (a multiplier of at most 1); other values are kept; a normalized configuration is unchanged |
| Retry.NextDelay | pkg/utils/retry.go:39-42 | no contract of its own: the delay times the multiplier, capped by a positive `MaxDelay`; see `Retry.DelayCapped` |
| Retry.DelayAt | pkg/utils/retry.go:25-42 | no contract of its own: the i-th sleep; see `Retry.DelayCapped`, `Retry.DelayExponential` and `Retry.Retry` |
| Retry.Retry | pkg/utils/retry.go:14-45 | calls `fn` until the first success or until the attempts run out; returns nil on success, else the last error; sleeps the backoff delays in order between calls |
| Retry.FollowsDeterministic | pkg/utils/retry.go:25-44 | the result, the number of calls and the sleeps depend only on the configuration and on `fn`'s outcomes |
| Retry.SucceedsIff | pkg/utils/retry.go:27-35 | succeeds exactly when one of the first `MaxAttempts` calls succeeds; a failure means every allowed call failed |
| Retry.DelayCapped | pkg/utils/retry.go:39-42 | with a positive `MaxDelay`, every delay is positive and every delay after the first is at most `MaxDelay` |
| Retry.DelayExponential | pkg/utils/retry.go:39 | without a cap, the i-th delay is the initial delay times the multiplier to the i-th power |
| Cache.Sweep | pkg/cache/cache.go:106-117 | a sweep never makes the list longer |
| Cache.GetSpec | pkg/cache/cache.go:35-49 | no contract of its own: what `Get` does to the list; see `Cache.GetAbsent`, `Cache.GetLive`, `Cache.GetExpired` and `Cache.LRUCache.Get` |
| Cache.SetSpec | pkg/cache/cache.go:51-70 | no contract of its own: what `Set` does to the list; see `Cache.SetExisting`, `Cache.SetNew`, `Cache.SetThenGet` and `Cache.LRUCache.Set` |
| Cache.GetAbsent | pkg/cache/cache.go:39-48 | `Get` on an absent key misses and changes nothing |
| Cache.GetLive | pkg/cache/cache.go:39-46 | `Get` on a live entry returns its value and moves it to the front; the other entries keep their order, and no value or expiration changes |
| Cache.GetExpired | pkg/cache/cache.go:41-43 | `Get` on an expired entry misses and removes exactly that entry |
| Cache.SetExisting | pkg/cache/cache.go:55-60 | `Set` on a present key puts it at the front with the new value and expiration; the other entries stay and the size does not change |
| Cache.SetNew | pkg/cache/cache.go:63-69 | `Set` on a new key pushes it at the front; when the cache is full, exactly the least recently used entry is evicted; the bound holds |
| Cache.SetThenGet | pkg/cache/cache.go:35-70 | a value just set is returned by a `Get` made before it expires |
| Cache.SweepKeepsLive | pkg/cache/cache.go:109-116 | `cleanup` keeps exactly the entries that have not expired |
| Cache.SweepConcat | pkg/cache/cache.go:109-116 | `cleanup` keeps the survivors in recency order, part by part |
| Cache.SweepKeepsDistinct | pkg/cache/cache.go:109-116 | `cleanup` keeps keys distinct |
| Cache.SweepIdempotent | pkg/cache/cache.go:106-117 | a second `cleanup` at the same instant removes nothing more |
| Cache.LinkedRemove | pkg/cache/cache.go:79-83 | removing a node and deleting its key keeps the map and the list in agreement |
| Cache.LinkedMove | pkg/cache/cache.go:45 | moving a node to the front keeps the map and the list in agreement without touching the map |
| Cache.LinkedRefresh | pkg/cache/cache.go:57-59 | updating the front entry's value and expiration keeps the map and the list in agreement |
| Cache.LinkedPush | pkg/cache/cache.go:63-65 | pushing a node for a new key and mapping the key to it keeps the map and the list in agreement |
| Cache.LRUCache.NewLRUCache | pkg/cache/cache.go:26-33 | a new cache is empty, with the given capacity and TTL |
| Cache.LRUCache.Locate | pkg/cache/cache.go:39 | the map's node for a present key is at the position of that key's entry |
| Cache.LRUCache.removeElement | pkg/cache/cache.go:79-83 | unlinks the node and deletes exactly its key from the map |
| Cache.LRUCache.removeOldest | pkg/cache/cache.go:72-77 | removes the back entry when there is one, and does nothing on an empty list |
| Cache.LRUCache.moveToFront | pkg/cache/cache.go:45 | moves the node to the front; the map is unchanged |
| Cache.LRUCache.pushFront | pkg/cache/cache.go:63-65 | a new front node for the entry, which its key now maps to |
| Cache.LRUCache.Get | pkg/cache/cache.go:35-49 | the value and true for a live entry, nil and false otherwise, with the list changed as the `Get` lemmas state; the map and the list stay in agreement and within capacity |
| Cache.LRUCache.Set | pkg/cache/cache.go:51-70 | the list changes as the `Set` lemmas state, and the map and the list stay in agreement and within capacity |
| Cache.LRUCache.refresh | pkg/cache/cache.go:55-60 | the entry moves to the front and takes the new value and expiration, and the size is unchanged |
| Cache.LRUCache.insert | pkg/cache/cache.go:63-69 | the new entry is at the front, and the back entry is evicted when the list is over capacity |
| Cache.LRUCache.Size | pkg/cache/cache.go:85-89 | the number of entries, which never exceeds the capacity |
| Cache.LRUCache.cleanup | pkg/cache/cache.go:106-117 | walking from the back removes exactly the expired entries and keeps the map in agreement |
| OrderService.RunWritesOutcome | internal/service/order.go:37-53 | the callback fails exactly when an issued write fails; the error wraps that write's failure; the writes before it are applied; with no failure all of the order's statements are applied |
| OrderService.RunWrites | internal/service/order.go:37-53 | no contract of its own: the callback body on the tables the transaction sees; see `OrderService.RunWritesOutcome`, `OrderService.RetryIsIdempotent` and `OrderService.OrderService.WriteOrder` |
| OrderService.OrderService.constructor | internal/service/order.go:27-33 | `NewOrderService` keeps the manager and the repository it is given, which work on one pool |
| OrderService.RetryIsIdempotent | internal/service/order.go:37-62 | re-running the writes after an attempt that stopped part-way, or after one that finished, leaves the tables as one complete run does |
| OrderService.SavedOrderReadsBack | internal/service/order.go:37-53 | a new order written without faults reads back through `GetOrder` as itself, when its 32-bit columns fit and its item keys are new and distinct |
| OrderService.CleanRunItems | internal/service/order.go:47-49 | a fault-free run touches `items` only through the order's one multi-row insert, and not at all when the order has no items |
| OrderService.OrderService.WriteOrder | internal/service/order.go:37-53 | the callback's repository calls, in a context carrying an active transaction, change the transaction's view as the sequential writes say, return the wrapped first error, and leave the pool alone |
| OrderService.OrderService.SaveOrder | internal/service/order.go:35-63 | up to 5 attempts of `Do`, with the writes as the callback and sleeps of 100ms doubling in between, follow `Retry`; only the successful attempt changes the tables, by exactly its writes |
| OrderService.OrderService.GetOrderByID | internal/service/order.go:65-67 | the stub returns the zero order and no error |
| OrderService.SaveRetryDelays | internal/service/order.go:56-62 | the sleeps between attempts are 100ms times 2 to the i-th power |
| Kafka.DlqOf | internal/handler/kafka.go:90-93 | the dead-letter message is the original with "-dlq" appended to its topic and every other field unchanged |
| Kafka.HandleError | internal/handler/kafka.go:77-88 | no contract of its own: the error `handleSaveOrder` returns; see `Kafka.KafkaHandler.handleSaveOrder` |
| Kafka.StepEvents | internal/handler/kafka.go:61-73 | no contract of its own: the calls one pass of the loop makes; see `Kafka.StepCommitsLicensed`, `Kafka.RejectedNeverSaved` and `Kafka.KafkaHandler.HandleFetched` |
| Kafka.UntilShutdown | internal/handler/kafka.go:49-58 | `Consume` handles the fetches before the first one whose error is `io.EOF` or `context.Canceled`, and stops at that one |
| Kafka.StepCommitsLicensed | internal/handler/kafka.go:61-73 | for one message, a commit comes right after a successful save or a successful dead-letter write of that same message |
| Kafka.EventsCommitsLicensed | internal/handler/kafka.go:48-74 | over any sequence of handled messages, every commit comes right after a successful save or dead-letter write of the message it commits |
| Kafka.CommitOnlyAfterSaveOrDlq | internal/handler/kafka.go:48-74 | over a whole run of `Consume`, every commit comes right after a successful save or a successful dead-letter write of the same message |
| Kafka.DlqFailureMeansNoCommit | internal/handler/kafka.go:65-68 | a failed dead-letter write is never followed by a commit |
| Kafka.RejectedNeverSaved | internal/handler/kafka.go:77-88 | a message that fails decoding or validation never reaches the saver; it is dead-lettered and committed only if that write succeeded |
| Kafka.SavedOrdersDecoded | internal/handler/kafka.go:77-88 | every order the saver receives is the conversion of the fetched message it is recorded with, and that message decoded and validated |
| Kafka.TraceCons | internal/handler/kafka.go:48-74 | messages are handled one at a time, and after any outcome (a failed save, dead-letter write or commit) the loop goes on to the next fetch |
| Kafka.ShutdownStops | internal/handler/kafka.go:50-53 | nothing after an `io.EOF` or `context.Canceled` fetch error is handled |
| Kafka.OtherFetchErrorSkipped | internal/handler/kafka.go:54-57 | any other fetch error is skipped, with no save, dead-letter write or commit |
| Kafka.KafkaHandler.FetchMessage | internal/handler/kafka.go:50 | returns the next result of the stream, or `io.EOF` once it is exhausted |
| Kafka.KafkaHandler.handleSaveOrder | internal/handler/kafka.go:77-88 | decode and validation failures are returned wrapped (still matching their cause) without calling the saver; otherwise the saver gets the converted order and its error is returned |
| Kafka.KafkaHandler.WriteToDLQ | internal/handler/kafka.go:90-93 | sends the message with "-dlq" appended to its topic and returns the writer's error |
| Kafka.KafkaHandler.CommitMessages | internal/handler/kafka.go:71-73 | records the commit and returns its error, which the loop only logs |
| Kafka.KafkaHandler.HandleFetched | internal/handler/kafka.go:61-73 | one pass of the loop body makes exactly the calls the per-message rule gives |
| Kafka.KafkaHandler.Consume | internal/handler/kafka.go:48-75 | makes exactly the calls of `Trace` on the stream, in order; what is left of the stream is what follows the fetch that ended the loop, or nothing when the stream ran out |
| Kafka.KafkaHandler.Close | internal/handler/kafka.go:95-100 | closes the reader first; if that fails its error is returned and the dead-letter writer is not closed; otherwise the writer's close result is returned |

## Left out

- Concurrency: the cache's mutex, the janitor goroutine (`StartJanitor`) and its ticker are not modelled. `cleanup` is modelled as a call at an instant `now`.
- Cache.LRUCache.Get: `time.Now()` is the parameter `now`, the same instant for the whole call; the monotonic clock is not modelled.
- Retry.Retry: the multiplier is a whole number, and `time.Duration(float64(delay) * m)` is modelled as `delay * m`. A fractional multiplier such as 1.5, float rounding and `time.Duration` overflow are not modelled. `time.Sleep` is recorded as a ghost list of delays, not as time passing.
- Retry.Retry: `fn` is the sequence of its outcomes, so side effects of `fn` are not modelled there. `OrderService.OrderService.SaveOrder` therefore runs the same retry loop itself around `Trm.Manager.Do`, and its contract is stated with the same `Retry.Follows` predicate.
- Trm.Manager.Do: the callback is a function from the tables the transaction sees to the new tables and an error, because Dafny cannot pass a method as a value. `OrderService.OrderService.WriteOrder` proves that the service's callback body, made of repository calls, is that function.
- SQL text, the query builder, the driver and connection pool, and PostgreSQL's rule that a transaction is aborted after a failed statement are not modelled. A failed statement changes nothing and the transaction goes on.
- Row order: a query returns `items` rows in insertion order. SQL without `ORDER BY` promises no order.
- Nil and empty slices are the same here. `OrderToEntity` and `GetOrder` give an empty item list in both cases.
- Time zones, the monotonic clock reading and the database's timestamp precision are not modelled. A `time.Time` is Unix seconds plus nanoseconds.
- JSON decoding (`json.Unmarshal`), the validator's rules (`e164`, `email`, ...) and gob encoding are oracles or are not modelled. Each fetch carries its decode and validation outcomes.
- Kafka.KafkaHandler.Consume: the reader's stream is a finite sequence of fetch results, and its end reads as `io.EOF`. A reader that blocks forever is not modelled. Logging is not modelled.
- The HTTP handlers, metrics, middleware, configuration loading, application wiring (internal/app/app.go, cmd/main.go) and the test load generators are not part of this model.
- `NewKafkaHandler`'s reader and writer configuration (brokers, group, batch timeout) is not modelled. The constructor takes the stream.
