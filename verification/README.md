# ShopNest: a checked model of the checkout pipeline, the task service and the .env scripts

ShopNest turns a cart into an order and an order into a delivery task. The shop publishes a checkout event on Kafka, Service
Bus or HTTP; order-svc creates the order at most once; an OrderCreated event makes task-svc keep one delivery task for it.
Every hop may deliver a message again, and any process may stop at any await. This project states what the code guarantees
under those conditions and proves it with Dafny.

**Checkout pipeline.** `OrderMachine.dfy` splits `createOrderFromCheckout` at every await and lets any number of calls
interleave over one Postgres at READ COMMITTED: a statement sees committed rows and its own, an insert of a unique value held
by an open transaction waits, and a repository `save` is a select followed by an insert or an update. A disabled action leaves
the state alone, so a run is any sequence of actions and "for every run" means for every interleaving, failure, crash and lost
acknowledgement. `OrderSafety.dfy` has the results over all runs, `OrderService.dfy` the service as a class whose uninterrupted
call is proved to be one of those runs, and `OrderRetry.dfy` says which calls can still return. `Transport.dfy` adds the three
entry points and `ServiceBusPump.dfy` the pump as it is written, each batch of which is a run of the transport machine.
`Cart.dfy` is the cart in Redis, `Delivery.dfy` and `DeliveryConsumer.dfy` the consumer of OrderCreated with its in-memory
position kept apart from the committed offset, and `Pipeline.dfy` joins all of them into one system.

**Task service.** `TaskCacheMachine.dfy` interleaves get, create, ensure, update and delete at every await over the table and
the cache, and keeps the history of each row. `TaskService.dfy` has the two classes for requests served one at a time, and
`Paging.dfy` the list query with its 32-bit offset.

**Text machines.** `EnvScanner.dfy` is the line scanner for `.env` files. `Regex.dfy` is a backtracking matcher for the
ECMAScript constructs the scripts use: it lists all ways to match in the order an engine tries them, so the first is the match.
`EnvDotenv.dfy` and `EnvInstaller.dfy` run the repository's own patterns on it, `EnvEscapes.dfy` has the replace passes of the
decoder, `Routes.dfy` the route normaliser and `DevStack.dfy` the dev orchestrator. `Text.dfy` and `Prelude.dfy` hold what
they share.

Where the code and its comments, or a natural expectation, part ways, the model follows the code:

- The catch block of the OrderCreated consumer says the partition will retry. It does only across a restart: the loop never
  seeks back, so a failed record that a later one overtakes is lost (`FailedThenOvertakenIsLost`); a record can still be
  handled exactly when a session is on its way to it or the committed offset is not beyond it (`CanBeHandledExactlyWhen`).
- Before the group's first commit a restart begins at the end of the log, so even a record that never failed is lost
  (`RestartBeforeFirstCommitLoses`). Guarantees therefore start at the base, where the group's first commit was made from.
- Removing the cache entry after the commit does not stop a reader that fetched before it from putting the old task back
  (`LatePutStaysStale`); which steps leave an entry behind for good, and which mend it, is exact
  (`StaleExactlyWhenSpoiled`).
- A far page's offset wraps around 32 bits and other rows are listed (`PageIsRightExactlyWhen`).
- A correlation id used first under one key and then under another blocks the second message for ever
  (`SecondKeyIsBlocked`); a call can return exactly when its key has a row or its correlation id is free
  (`CanReturnExactlyWhen`).
- The bus listener prefers the broker's message id to the correlation id as key. The three entry points together keep keys
  and correlation ids in step exactly when those ids are their messages' own (`EntryKeysDetermineExactlyWhen`).
- The five decoding passes turn an n, r or t after a backslash of the value into a control character
  (`EnvEscapes.RoundTripExactlyWhen`).
- The installer takes the closing quote of an earlier value whose last line is `KEY=` for the opening quote of KEY
  (`FindsOwnEntryExactlyWhen`), and it drops the file's last newline when KEY's entry is the last one.
- The regex reader says that callers decide what to do with empty strings, but an empty value followed by another line
  takes that line for its value (`EmptyValueTakesTheNextLine`).
- A carriage return or a Unicode line separator in the first line of a value hides the entry from the line scanner but not
  from the regex reader (`ReadersAgreeExactlyWhen`).

## Model

| member | source | states |
|---|---|---|
| OrderMachine.BuildLineEntities | apps/order-svc/src/order.service.ts:68-78 | the loop builds one line per position, product i with quantity i at price zero |
| OrderMachine.NextKeepsInv | apps/order-svc/src/order.service.ts:33-106 | every await of every call, its failure, a lost commit acknowledgement and the publish keep the invariant over rows, open transactions and results |
| OrderMachine.RunKeepsInv | apps/order-svc/src/order.service.ts:33-106 | the invariant holds after every sequence of steps of any number of calls |
| OrderSafety.EveryRun | apps/order-svc/src/entities/order.entity.ts:15-16 | in every reachable state: one order per correlation id; each order confirmed and whole, with its creating message's user, cart, correlation id and lines; each processed row naming an order made for its key; each order published at most once and only after its commit |
| OrderSafety.OrderHoldsItsMessage | apps/order-svc/src/order.service.ts:60-79 | the tables hold for each order its message's fields, and for each position of the message one line with that product, that quantity and price zero, and no other line |
| OrderSafety.NoFallThrough | apps/order-svc/src/order.service.ts:34-41 | the order named by a processed row is always there to load, in both checks |
| OrderSafety.ReturnsAreCommitted | apps/order-svc/src/order.service.ts:49-105 | whatever a call returns is a whole committed order for its own key; two keys never return one order |
| OrderSafety.RunIsLater | apps/order-svc/src/order.service.ts:49-93 | a committed order, its lines and a returned result never change afterwards |
| OrderSafety.ProcessedRowsAreRight | apps/order-svc/src/order.service.ts:81-84 | when keys determine correlation ids, a processed row points at the one order with its key's correlation id and the second save never overwrites a row |
| OrderSafety.SecondKeyIsNeverAnswered | apps/order-svc/src/entities/order.entity.ts:15-16 | once a correlation id has been ordered under one key, no run gives another key of the same correlation id a processed row or a result |
| OrderRetry.CanReturnExactlyWhen | apps/order-svc/src/order.service.ts:33-106 | at any moment of any run over keys that determine correlation ids, some continuation returns a well-formed call if and only if its key has a row or no order has its correlation id |
| OrderRetry.SecondKeyIsBlocked | apps/order-svc/src/entities/order.entity.ts:15-16 | for any two messages with one correlation id and two keys: after the first is answered, no continuation returns the second |
| OrderSafety.KeyedReturnsAgree | apps/order-svc/src/order.service.ts:33-106 | when keys determine correlation ids, all calls with one key return the same order with the same lines |
| OrderSafety.BadRunDisagrees | apps/order-svc/src/order.service.ts:51-84 | a concrete run of two messages with one key and two correlation ids ends with two different orders returned |
| OrderSafety.ReturnsAgreeExactlyWhen | apps/order-svc/src/order.service.ts:33-106 | calls with one key agree in every run if and only if the keys of the well-formed messages determine their correlation ids |
| OrderSafety.EventsStayTrue | apps/order-svc/src/order-created-publisher.service.ts:51-78 | an OrderCreated event in the topic repeats its committed order's user, cart, correlation id and number of lines, in every continuation of every run |
| OrderSafety.EmitAddsItsEvents | apps/order-svc/src/order-created-publisher.service.ts:51-78 | in every run a publish call names its committed order for the first time and adds exactly as many events as the broker took, each with that order's fields and line count |
| OrderService.OrderService.CreateInTransaction | apps/order-svc/src/order.service.ts:49-93 | all or nothing: either the tables stay, or they gain exactly the message's confirmed order, its lines and the key's row |
| OrderService.OrderService.CreateOrderFromCheckout | apps/order-svc/src/order.service.ts:33-106 | for hits, refusals and creations: which error each bad message gets, what a hit returns, the rows a creation writes field by field, and its publish calls |
| OrderService.SecondCallIsNoOp | apps/order-svc/src/order.service.ts:34-41 | after a successful call, a call with the same key and any body changes nothing and returns the first result |
| OrderService.CallKeepsOrders | apps/order-svc/src/order.service.ts:43-93 | a refused call leaves the tables alone; no call changes an existing order |
| OrderService.SoloIsARun | apps/order-svc/src/order.service.ts:33-106 | from every quiet reachable state the class's call is a run of the concurrent machine with the same tables and result |
| Transport.KeyOfEntryCall | apps/order-svc/src/service-bus-listener.service.ts:36-40 | a usable call of any entry point is keyed by its correlation id, or by the id of the bus message it came from |
| Transport.KeyChoice | apps/order-svc/src/kafka-checkout-listener.service.ts:46-78 | the key of a record or bus message is its own key or id, else the correlation id, else at most the first 120 characters of the text; the body goes along unchanged |
| Transport.PlanExactlyWhen | apps/order-svc/src/kafka-checkout-listener.service.ts:46-78 | which records are skipped, which records and bus messages throw before any call, and that a null body with a key never makes an order |
| Transport.EntryKeysDetermineExactlyWhen | apps/order-svc/src/entities/processed-event.entity.ts:5-7 | the keys chosen for any records, bus messages and posts determine correlation ids if and only if messages that share an id share their correlation id and no id is the key of another correlation id |
| Transport.StepKeepsInv | apps/order-svc/src/kafka-checkout-listener.service.ts:46-78 | deliveries, rebalances, offset commits, redeliveries and settlements keep every passed record and completed message answered |
| Transport.PassedRecordsAreAnswered | apps/order-svc/src/kafka-checkout-listener.service.ts:46-78 | in every run each record from the group's base to below its committed offset is empty, unparsable or has a committed order for its key; a completed bus message has one |
| Transport.PoisonRecordHoldsPartition | apps/order-svc/src/kafka-checkout-listener.service.ts:68-75 | a record whose call throws and whose key no order answers is never passed by any session or commit |
| Transport.OldRecordsAreNotRead | apps/order-svc/src/kafka-checkout-listener.service.ts:38 | in no run does a session of a new group stand on a record that was in the log before it |
| ServiceBusPump.Pump.ProcessMessage | apps/order-svc/src/service-bus-listener.service.ts:41-52 | one message: a run of the bus machine, whatever else happens during the await; completed exactly when the call returned and the broker accepted it, dead-lettered exactly when it did not and that is accepted |
| ServiceBusPump.Pump.ProcessBatch | apps/order-svc/src/service-bus-listener.service.ts:36-54 | each batch is a run of the bus machine, ends at the first abandoned message, and every message it completes has a committed order for its key |
| ServiceBusPump.Pump.PumpBatches | apps/order-svc/src/service-bus-listener.service.ts:30-59 | so is the loop over any number of batches |
| ServiceBusPump.CompletedStays | apps/order-svc/src/service-bus-listener.service.ts:43 | a completed message stays completed in every continuation |
| Delivery.StepKeepsInv | apps/task-svc/Messaging/OrderCreatedKafkaConsumer.cs:59-105 | consuming, handling, failing, committing and restarting keep positions, offsets and tasks consistent |
| Delivery.CommittedRecordsHaveAFate | apps/task-svc/Messaging/OrderCreatedKafkaConsumer.cs:59-105 | each record from the base to below the committed offset was handled, filtered out, or failed and was overtaken in its session; with no failure every accepted one has its task unless a user deleted it |
| Delivery.NeverHandedAgain | apps/task-svc/Messaging/OrderCreatedKafkaConsumer.cs:83-104 | a record that no session is coming to, and that the committed offset is beyond or that has no committed offset to return to, is handled in no continuation |
| Delivery.CanBeHandledExactlyWhen | apps/task-svc/Messaging/OrderCreatedKafkaConsumer.cs:83-104 | an accepted record not yet handled is handled in some continuation if and only if a session is before it or has it in hand, or the committed offset is not beyond it |
| Delivery.FailedThenOvertakenIsLost | apps/task-svc/Messaging/OrderCreatedKafkaConsumer.cs:92-104 | the run where the comment on retrying is false: the first of two good records fails, the second commits, and no continuation ever handles the first |
| Delivery.RestartBeforeFirstCommitLoses | apps/task-svc/Messaging/KafkaConsumerConfiguration.cs:39-47 | with the latest offset as reset, a restart before the first commit skips a good record that never failed, and no continuation handles it |
| Delivery.RedeliveryKeepsTasks | apps/task-svc/Services/TaskService.cs:134-147 | no step of the consumer changes a task that exists, user edits included |
| Delivery.AcceptsExactlyWhen | apps/task-svc/Messaging/OrderCreatedKafkaConsumer.cs:122-168 | a record is accepted if and only if it is an OrderCreated of version 1 or later with a GUID and three fields that are not all white space; the command carries them trimmed |
| Delivery.TasksAreAsMade | apps/task-svc/Services/TaskService.cs:122-132 | in every run without user puts each row is its order's delivery task: from a record's command, to be done, high priority, no due date, unchanged |
| DeliveryConsumer.Consumer.HandleMessage | apps/task-svc/Messaging/OrderCreatedKafkaConsumer.cs:122-168 | only an accepted record inserts, and then a task to be done with high priority, no due date and the record's command; existing tasks stay, and the call fails only if the insert does |
| DeliveryConsumer.Consumer.PassRecord | apps/task-svc/Messaging/OrderCreatedKafkaConsumer.cs:83-104 | one record is consumed and handled before its commit; a failure skips the commit and leaves the position ahead |
| DeliveryConsumer.Consumer.Execute | apps/task-svc/Messaging/OrderCreatedKafkaConsumer.cs:48-120 | the loop over any polls, errors, timeouts and ends of partition is a run of the consumer machine |
| Cart.AddedUnits | apps/shop-svc/src/shop.service.ts:54-63 | adding q units of p adds exactly q units of p and nothing else |
| Cart.SnapUnits | apps/shop-svc/src/shop.service.ts:70-87 | the parallel arrays hold, product by product, the units of the cart |
| Cart.ShopService.AddToCart | apps/shop-svc/src/shop.service.ts:54-63 | refuses bad quantities and unknown products without a change; otherwise stores and returns the cart with the units added |
| Cart.ShopService.ClearCart | apps/shop-svc/src/shop.service.ts:65-67 | empties this user's cart and no other |
| Cart.ShopService.BuildCheckoutPayload | apps/shop-svc/src/shop.service.ts:70-87 | refuses an empty cart; otherwise the snapshot carries this correlation id, user and cart id, and line by line the cart |
| Cart.UsersDoNotMeet | apps/shop-svc/src/shop.service.ts:39-67 | however the requests of different users are mixed, a user's cart and checkout events are those of the user's own requests alone |
| Cart.ShopService.Checkout | apps/shop-svc/src/shop.controller.ts:44-73 | snapshot, publish, then clear, with every failure in between; what it publishes carries this request's correlation id, user, cart id and lines; it refines the history step |
| Cart.EventsAreSnapshots | apps/shop-svc/src/shop.service.ts:70-87 | every event of a history is the snapshot of one of its checkouts: that request's correlation id, user and cart id, and the cart as it then was |
| Cart.Conservation | apps/shop-svc/src/shop.controller.ts:45-66 | for every history, user and product: cart plus published units equal units added plus what leaking checkouts left behind |
| Cart.NothingIsLost | apps/shop-svc/src/shop.controller.ts:45-66 | no unit is ever lost, and none is counted twice if and only if no checkout stopped between publish and clear with units of the product |
| Pipeline.ChooseChannel | apps/shop-svc/src/checkout-publisher.service.ts:48-85 | for each channel exactly the settings and connections under which it is taken, and when there is none |
| Pipeline.EveryChannelPlacesTheEvent | apps/shop-svc/src/checkout-publisher.service.ts:95-129 | the event becomes the same usable body, with its user, cart, correlation id and arrays, on all three channels, keyed by its correlation id, or by the broker's message id on the bus if there is one |
| Pipeline.SendReachesItsChannel | apps/shop-svc/src/checkout-publisher.service.ts:95-129 | a send adds the event with its key and body to its channel and touches no other |
| Pipeline.NextKeepsInv | apps/shop-svc/src/checkout-publisher.service.ts:48-129 | every step of the whole system, repeated sends and any broker-assigned message ids included, keeps all parts consistent |
| Pipeline.LineUnitsPermute | apps/order-svc/src/order.service.ts:89-92 | the units of an order do not depend on the order its rows are loaded in |
| Pipeline.OrdersCarryTheirEvents | apps/order-svc/src/order.service.ts:60-79 | every committed order is the confirmed order of a published checkout event: its user, cart and correlation id, and its units product by product |
| Pipeline.CallsAgree | apps/order-svc/src/service-bus-listener.service.ts:38-42 | over all channels at once, calls with one key, and calls with one correlation id under whatever keys, return one order, if broker ids are their messages' own |
| Pipeline.AnswerIsOwnOrder | apps/order-svc/src/order.service.ts:60-79 | with fresh correlation ids exactly one order has an event's correlation id, and it carries exactly the event's units |
| Pipeline.EndToEndConservation | apps/shop-svc/src/shop.service.ts:54-87 | once a user's events are ordered, units in the cart plus units in committed orders equal units added plus leaked ones, whatever ids the broker gives |
| Pipeline.PassedEventsAreOrdered | apps/order-svc/src/kafka-checkout-listener.service.ts:46-78 | a checkout record the order group has passed has an order with exactly its units |
| Pipeline.CompletedMessagesAreOrdered | apps/order-svc/src/service-bus-listener.service.ts:41-43 | so does a completed bus message, with or without an id from the broker |
| Pipeline.DeliveredTasksHaveOrders | apps/task-svc/Services/TaskService.cs:104-155 | every row of the tasks table that no user made belongs to a committed order published once; the command it was made from repeats that order's fields and line count |
| TaskCacheMachine.NextKeepsInv | apps/task-svc/Services/TaskService.cs:58-201 | every await of every request, failures and evictions included, keeps rows, versions, in-flight readers and cache entries tied to the row's history |
| TaskCacheMachine.GetsReturnHeldValues | apps/task-svc/Services/TaskService.cs:58-78 | every task a get returns was that row's value at some earlier moment |
| TaskCacheMachine.StaleEntriesHaveACause | apps/task-svc/Services/TaskService.cs:157-201 | a cached entry differs from its row only before the writer's removal, after a failed one, or after a reader put back what it fetched before the commit |
| TaskCacheMachine.BehindExactlyWhen | apps/task-svc/Services/TaskService.cs:157-201 | version by version, an entry is behind its row if and only if some change after its version is pending removal, missed its removal, or was removed before the entry was put; then the first missed one is |
| TaskCacheMachine.LeftBehindAfterStep | apps/task-svc/Services/TaskService.cs:58-201 | after any step an entry is left behind if and only if the step spoils it (a put of a version older than a settled change, or the loss of the last awaited removal) or it was left behind and the step does not mend it |
| TaskCacheMachine.StaleExactlyWhenSpoiled | apps/task-svc/Services/TaskService.cs:178-183 | over any run, with no writer of the row at its removal, the entry is behind its row if and only if some step spoiled it and no later one mended it |
| TaskCacheMachine.CoherentUnlessSpoiled | apps/task-svc/Services/TaskService.cs:178-183 | after every run that leaves nothing spoiled, with no writer at its removal, the cache is a part of the table |
| TaskCacheMachine.UpdatesFormAChain | apps/task-svc/Services/TaskService.cs:163-178 | each committed update was computed from the version right before it, and creation time never moves |
| TaskCacheMachine.SaveSucceedsExactlyWhenUnchanged | apps/task-svc/Data/Configurations/TaskItemConfiguration.cs:43 | the xmin check lets a save through if and only if nothing was committed to the row since it was read |
| TaskCacheMachine.SaveWritesTheRequest | apps/task-svc/Services/TaskService.cs:169-178 | in every run a save that goes through leaves the row as requested, field by field, with its creation time kept, and touches no other row |
| TaskCacheMachine.LatePutStaysStale | apps/task-svc/Services/TaskService.cs:180-183 | with no failure at all, an overtaken reader leaves the old task in the cache |
| TaskService.HexInjective | apps/task-svc/Caching/TaskCache.cs:100-104 | the 32-digit form names each id once |
| TaskService.KeysDiffer | apps/task-svc/Caching/TaskCache.cs:100-104 | cache keys are equal exactly for one id under prefixes equal up to a final colon |
| TaskService.KeyShape | apps/task-svc/Caching/TaskCache.cs:100-104 | a key is the prefix with its colon, `task:` and 32 hexadecimal digits that read as the id |
| TaskService.ServeKeepsPartExactlyWhen | apps/task-svc/Services/TaskService.cs:58-201 | one request keeps the cache a part of the table if and only if it is not a write that changed the row, whose removal failed, with the row's entry still cached |
| TaskService.ReplayKeepsPartExactlyWhen | apps/task-svc/Services/TaskService.cs:58-201 | the cache is a part of the table after every request of a history if and only if no request of it is such a write |
| TaskService.RemovalsKeepPart | apps/task-svc/Caching/TaskCache.cs:82-98 | a history in which no removal fails has none, whatever reads, writes and evictions do |
| TaskService.GetIsLookup | apps/task-svc/Services/TaskService.cs:58-78 | after such a history a get is a table lookup, whatever reads, writes and evictions of the cache did |
| TaskService.FailedRemovalServesOldTask | apps/task-svc/Caching/TaskCache.cs:82-98 | one swallowed failure of a removal makes the next get return the old task |
| TaskService.EntriesAreSeparate | apps/task-svc/Caching/TaskCache.cs:41-104 | setting or removing one id's entry shows in a get of that id, and of no other id and under no other service's prefix |
| TaskService.TaskService.GetAsync | apps/task-svc/Services/TaskService.cs:58-78 | cache-aside read; on a cache that is part of the table it is a lookup and keeps that |
| TaskService.TaskService.CreateAsync | apps/task-svc/Services/TaskService.cs:80-102 | inserts the trimmed task with its defaults, field by field, and keeps the cache a part of the table |
| TaskService.TaskService.EnsureDeliveryTaskFromOrderAsync | apps/task-svc/Services/TaskService.cs:104-155 | inserts once, a task to be done with high priority that says what the command says; an existing row, whatever it now holds, and every other row stay |
| TaskService.TaskService.UpdateAsync | apps/task-svc/Services/TaskService.cs:157-187 | writes the trimmed title, the trimmed or absent description and the other fields of the request, keeps the creation time, touches no other row, and invalidates after the write; a coherent cache stays so exactly when the request does not spoil it |
| TaskService.TaskService.DeleteAsync | apps/task-svc/Services/TaskService.cs:189-201 | removes exactly this row, reports whether there was one and invalidates only then; a coherent cache stays so exactly when the request does not spoil it |
| Paging.Wrap32 | apps/task-svc/Services/TaskService.cs:50 | the 32-bit product is the true one exactly when that fits |
| Paging.OrderIsUnique | apps/task-svc/Services/TaskService.cs:48-49 | newest first, then id, orders the rows in one way only |
| Paging.SortedOrdered | apps/task-svc/Services/TaskService.cs:48-49 | the sorted list is in that order |
| Paging.List | apps/task-svc/Services/TaskService.cs:18-56 | the progressive filters, order, skip and take give the wrapped-offset slice of the filtered, sorted rows, or the database's refusal of a negative offset |
| Paging.TotalPagesIsCeiling | apps/task-svc/Dtos/PagedResult.cs:15 | the page count is the least that holds all rows |
| Paging.PagesCover | apps/task-svc/Services/TaskService.cs:46-55 | pages 1 to TotalPages join to the whole list, all full but the last, none with an overflowing offset |
| Paging.LaterPagesAreEmpty | apps/task-svc/Services/TaskService.cs:48-51 | later pages whose offset does not overflow are empty |
| Paging.EveryRowIsListedOnce | apps/task-svc/Services/TaskService.cs:18-56 | asking for pages 1 to TotalPages lists each row that meets the filters exactly once, newest first and then by id |
| Paging.PageIsRightExactlyWhen | apps/task-svc/Services/TaskService.cs:50 | an unfiltered page is right for every table if and only if its offset fits in 32 bits or wraps to the largest one |
| Paging.FarPageWrapsAround | apps/task-svc/Services/TaskService.cs:50 | page 42949674 of 100 starts at row 4 |
| EnvScanner.IsKeyExactlyWhen | scripts/check-kafka-pems.mjs:16 | a key is a capital letter or underscore and then capital letters, digits and underscores |
| EnvScanner.HeaderIsRead | scripts/check-kafka-pems.mjs:16 | the header pattern reads KEY=text in one way, and only if the text has no line terminator |
| EnvScanner.ReadBlock | scripts/check-kafka-pems.mjs:27-38 | the inner loop takes the lines up to the closing one, or all of them |
| EnvScanner.LoadEnv | scripts/check-kafka-pems.mjs:9-46 | on every input both loops end, take each line exactly once in order and compute the parse; a file of quoted and unquoted entries, comments and blank lines gives the last-wins map of its entries |
| EnvScanner.ReadLines | scripts/ensure-kafka-topic.mjs:17-56 | the same scanner, written a second time for topic creation: the lines of such a file give the same map |
| EnvScanner.RoundTrip | scripts/check-kafka-pems.mjs:9-46 | any list of printable keys and values, repeats included, parses back to the last-wins map |
| EnvScanner.RoundTripExactlyWhen | scripts/check-kafka-pems.mjs:15-44 | one entry comes back if and only if its first line has no line terminator and no line before the last ends in a quote |
| EnvScanner.FilesAreRead | scripts/check-kafka-pems.mjs:9-46 | any file of quoted entries, unquoted entries, comments and blank lines, in any order, is read entry by entry, unquoted values as they stand, last wins |
| EnvScanner.BareIsReadExactlyWhen | scripts/ensure-kafka-topic.mjs:17-56 | one unquoted entry is read as it stands if and only if its text has no line terminator and does not begin with a quote |
| EnvScanner.UnclosedTakesTheRest | scripts/check-kafka-pems.mjs:27-38 | a quote that no line closes takes the rest of the file for its value |
| EnvEscapes.DecodeEncoded | infra/local/minikube-overlay/seed-secrets.mjs:65-71 | escaping and then the five passes changes exactly the n, r and t that stand right after a backslash |
| EnvEscapes.RoundTripExactlyWhen | infra/local/minikube-overlay/seed-secrets.mjs:65-71 | the passes give the value back if and only if there is none |
| EnvEscapes.BackslashFreeComesBack | infra/local/minikube-overlay/seed-secrets.mjs:65-71 | so every value without a backslash comes back |
| EnvEscapes.EscapeIsDecoded | infra/local/minikube-overlay/seed-secrets.mjs:65-71 | one escape in any text becomes a line feed, carriage return, tab or quote after n, r, t or a quote, and stays as it is after any other letter |
| EnvEscapes.PathIsGarbled | infra/local/minikube-overlay/seed-secrets.mjs:67 | a path with a directory starting in n is read with a line break |
| EnvDotenv.LineTakesTwo | infra/local/minikube-overlay/seed-secrets.mjs:57-61 | every match of the pattern takes at least two characters, so the exec loop ends |
| EnvDotenv.ParseDotenv | infra/local/minikube-overlay/seed-secrets.mjs:55-78 | the loop over regex state reads every match from left to right, trimmed, unquoted and decoded |
| EnvDotenv.LineFirst | infra/local/minikube-overlay/seed-secrets.mjs:57-58 | at a KEY="text" line the engine's first match is the key, the quoted text and the end of its last line |
| EnvDotenv.ReadsEveryEntry | infra/local/minikube-overlay/seed-secrets.mjs:55-78 | every file of KEY="text" entries without a bare quote or half escape is read entry by entry, last wins |
| EnvDotenv.FullLineIsRead | infra/local/minikube-overlay/seed-secrets.mjs:57-72 | indentation, `export`, blanks around the equals sign and a comment leave no trace in a quoted value |
| EnvDotenv.SingleQuotedIsRead | infra/local/minikube-overlay/seed-secrets.mjs:72-74 | a value between apostrophes is read as it stands |
| EnvDotenv.BareIsRead | infra/local/minikube-overlay/seed-secrets.mjs:57-64 | a bare value is read to the end of its line without the white space around it |
| EnvDotenv.EmptyValueTakesTheNextLine | infra/local/minikube-overlay/seed-secrets.mjs:57-58 | after an empty value the reader takes the whole next line for the value, where the line scanner reads two entries |
| EnvDotenv.EscapedFileReadsBack | infra/local/minikube-overlay/seed-secrets.mjs:51-78 | a file of escaped values, line breaks, quotes and tabs included, reads back to the values |
| EnvDotenv.EscapedEntryReadsBackExactlyWhen | infra/local/minikube-overlay/seed-secrets.mjs:64-75 | one escaped entry reads back if and only if no backslash of it stands before n, r or t |
| EnvDotenv.ReadersAgree | infra/local/minikube-overlay/seed-secrets.mjs:55-78 | scanner and regex reader give the same map on files of plain quoted values |
| EnvDotenv.ReadersAgreeExactlyWhen | scripts/check-kafka-pems.mjs:16 | for one plain entry they agree if and only if its first line has no carriage return or Unicode separator |
| EnvInstaller.LiteralExactlyWhen | scripts/install-kafka-pems.mjs:61-67 | a replacement goes in unchanged wherever it matches if and only if it holds no `$` pattern |
| EnvInstaller.PatternsStandFor | scripts/install-kafka-pems.mjs:61-67 | each `$` pattern of a replacement puts in a dollar sign, the match, what is before it or what is after it |
| EnvInstaller.BlockFound | scripts/install-kafka-pems.mjs:57-60 | the search takes KEY's entry from its line start to the end of its last line, past quotes that have a backslash before them |
| EnvInstaller.ReplacesOnlyItsEntry | scripts/install-kafka-pems.mjs:53-68 | on a printed file replaceBlock gives the file with that one entry rewritten |
| EnvInstaller.MissingBlockStops | scripts/install-kafka-pems.mjs:62-66 | a file without the key is refused |
| EnvInstaller.OneKeyUpdated | scripts/install-kafka-pems.mjs:53-68 | the scanner reads the old map with only that key updated |
| EnvInstaller.Install | scripts/install-kafka-pems.mjs:70-76 | the loop over the keys is the fold of replaceBlock and stops at the first missing block |
| EnvInstaller.InstallUpdatesExactly | scripts/install-kafka-pems.mjs:70-76 | through the whole loop the scanner reads the old map with exactly the wanted keys updated, if at each key's turn no value before its entry ends in a line reading `KEY=` |
| EnvInstaller.FindsOwnEntryExactlyWhen | scripts/install-kafka-pems.mjs:57-68 | with distinct keys and plain values a block is always found, and it is KEY's own entry if and only if no earlier value ends in a line reading `KEY=` |
| EnvInstaller.DecoyIsReplaced | scripts/install-kafka-pems.mjs:57-67 | a file of plain values where the block of another entry is replaced |
| EnvInstaller.DecoyLosesTheKey | scripts/install-kafka-pems.mjs:57-67 | the key is gone from what the scanner reads of it |
| Routes.PassesAreOne | packages/observability/src/http-metrics.interceptor.ts:28-37 | the three global passes equal one pass with a prioritised rule for each slash-led segment |
| Routes.RouteIsTemplate | packages/observability/src/http-metrics.interceptor.ts:28-37 | a path of names, numbers, UUIDs and object ids, with any query, becomes its template of names, `:num` and `:id` |
| Routes.BaseOf | packages/observability/src/http-metrics.interceptor.ts:29 | the query is cut off, white space around the path is trimmed, and an empty path is a slash |
| Routes.OnePassLeavesNone | packages/observability/src/http-metrics.interceptor.ts:30-35 | no slash of the result is followed by a digit, a UUID or 24 hex digits |
| Routes.NormalizeIsIdempotent | packages/observability/src/http-metrics.interceptor.ts:28-37 | a normalised route is its own normal form and holds no id |
| DevStack.Prefixer.OnData | scripts/dev-stack.mjs:79-86 | every chunk leaves exactly the ended lines written and the open one in the buffer |
| DevStack.Prefixer.OnEnd | scripts/dev-stack.mjs:87-89 | the last line is printed with a newline of its own |
| DevStack.PipeAll | scripts/dev-stack.mjs:77-90 | every way of cutting a text into chunks prints the same characters: the tag, each line and a newline |
| DevStack.PrintedKeepsText | scripts/dev-stack.mjs:82-88 | without tags that is the text, up to one final newline |
| DevStack.Supervisor.Shutdown | scripts/dev-stack.mjs:115-122 | the first call signals exactly the children without an exit code, later ones nobody |
| DevStack.RunningExactly | scripts/dev-stack.mjs:119-121 | the children it signals are exactly those without an exit code, each once, in order |
| DevStack.Supervisor.OnExit | scripts/dev-stack.mjs:130-139 | one child's end keeps the supervisor's books: first code, children left, who was stopped, whether the process has exited |
| DevStack.Supervise | scripts/dev-stack.mjs:113-140 | for any children ending in any order, with signals at any time, the process exits once, after the last child, with the exit code of the first, or 0 if a signal ended it, or 1 |

## Left out

- Brokers, Postgres, Redis and HTTP as programs: only their effects are modelled (append, commit, read, set, delete, fail,
  deliver again).
- More than one partition: a topic is one log here; several partitions are several copies of the same machine.
- Which client retries a handler and when: redelivery is a step that may happen at any time, and liveness is not claimed.
- Publishing OrderCreated for certain: the event is lost if the process stops between commit and publish or the send fails.
- Overlapping cart requests of one user, which can overwrite each other; histories here are sequences of whole requests.
- Expiry clocks of carts and cache entries: an entry may vanish in the cache machine; carts do not expire.
- JSON encoding, GUID parsing, random ids, timestamps and ILIKE: abstract values, a predicate, fresh ids.
- Non-integer or missing quantities and over-long column values: a statement that Postgres refuses is the failure step.
- Wrap-around of xmin after four billion transactions.
- The description text of a delivery task beyond the fields it is made of.
- Chunks that cut a UTF-8 character in two: chunks are strings.
- Keys of a replaced block with pattern characters in them; the script's three keys are plain letters.
- Reading, backing up and checking the PEM files around the installer's loop.
- GraphQL, authentication, the web client, metrics, deployment files and connection-string handling: no algorithm of their own.
- EndToEndConservation: assumes fresh correlation ids and that all of the user's events have been ordered, since a reused id or a pending event has no units in any order.
- PassedEventsAreOrdered: assumes fresh correlation ids and broker ids that are their messages' own, since otherwise a key may have been answered with another event's order.
- CompletedMessagesAreOrdered: assumes the same, for the same reason.
