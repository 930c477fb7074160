# basu event bus — a Dafny model

This project models the registry at the heart of the `basu` crate: an
in-process publish/subscribe bus. An `EventBus<T>` owns a two-level table. Its
outer level maps an event-type name to that type's handler registry, and each
registry maps a `HandlerId` to a handler. Six operations act on the table.
`subscribe` registers a handler under a freshly minted id, creating the
type's registry on first use. `unsubscribe` removes one id. `publish` hands
an event to every handler of a type. `list` returns the known type names,
`get_handler_count` returns a registry's size, and `clear` forgets
everything. The crate ships the same logic twice: a blocking variant (rayon
fan-out, every operation returns a `Result`) and an async variant (tokio
locks, `try_join_all`; `subscribe`, `list` and `clear` cannot fail). The
build picks exactly one of the two.

Files:

- `errors.dfy` (`Errors`): the three-variant error enumeration and a `Result` type.
- `events.dfy` (`Events`): the immutable event envelope, `New` and `GetData`.
- `basu.dfy` (`Basu`): the pieces both variants share. `HandlerId` is a
  datatype with one `id` field. `IdSource` is the fresh-id source, a counter
  with a ghost set of minted ids that stands in for UUID v4. `Handler` wraps
  what a handler answers for an event. `HandlerMap` and `EventHandlerMap` are
  the table types. The module also gives each operation's effect as a
  function on table values (`WithHandler`, `WithoutHandler`, `HandlerCount`)
  and defines `Dispatched`, the admissible outcomes of a publish. The lemmas
  about these functions are the properties the bus promises.
- `sync_bus.dfy` (`SyncBus.EventBus`): the blocking bus as a class. It has a
  `table` field and its methods reassign that field.
- `async_bus.dfy` (`AsyncBus.EventBus`, `HandleAll`, `TryJoinAll`): the async
  bus as a class. Its publish first builds one pending result per registry
  entry, then joins them.
- `scenarios.dfy` (`Scenarios`): the "echo" scenario of both test files,
  replayed against each class with its outcomes stated in `ensures`.

Each class keeps the invariant `Valid()`. It requires that every id in the
table was minted by the bus's `IdSource`, and that no id appears under two
event types. `Subscribe` and `Unsubscribe` preserve it
(`SubscribePreservesWellFormed`, `UnsubscribePreservesWellFormed`). Publish,
list and the count query have no `modifies` clause, so the verifier checks
that they leave the bus untouched.

## Model

| member | source | states |
|---|---|---|
| `Events.Event.New` | basu/src/event.rs:21-23 | wrapping cannot fail and the event's public `data` field is the given payload |
| `Events.Event.GetData` | basu/src/event.rs:26-28 | the accessor returns exactly the public `data` field |
| `Events.NewThenGetData` | basu/src/event.rs:21-28 | `GetData` on a new event returns the payload it was built from |
| `Events.NewInjective` | basu/src/event.rs:3-6 | an event is nothing but its payload: two new events are equal iff their payloads are |
| `Basu.HandlerIdEquality` | basu/src/lib.rs:85-89 | handler ids are equal exactly when their `id` fields are |
| `Basu.IdSource.New` | basu/src/lib.rs:91-95 | a minted id differs from every id minted before, and it is recorded as minted |
| `Basu.SubscribeKnownType` | basu/src/impl_sync.rs:45-51 | for a known type and a fresh id: the type set is unchanged, the registry gains exactly the new id (count + 1) mapped to the handler, earlier ids keep their handlers, other types' registries are unchanged |
| `Basu.SubscribeUnknownType` | basu/src/impl_sync.rs:53-60 | for an unknown type: the type becomes known, its registry is exactly `{id: handler}`, its count is 1, and other types are unchanged |
| `Basu.SubscribePreservesWellFormed` | basu/src/lib.rs:65-69 | subscribing under a never-minted id keeps every table id minted and keeps each id under at most one type |
| `Basu.SubscribeAllCount` | basu/src/impl_sync.rs:45-60 | subscribing N handlers to one type under N distinct fresh ids makes the type known and raises its count by exactly N |
| `Basu.UnsubscribeKnownType` | basu/src/impl_sync.rs:96-101 | on a known type only the given id is removed; the count drops by 1 when the id was present and is unchanged (the table is identical) when it was not; the type entry stays; other types are unchanged |
| `Basu.UnsubscribeIdempotent` | basu/src/impl_sync.rs:97-101 | unsubscribing the same id twice has the effect of unsubscribing it once |
| `Basu.UnsubscribeUndoesSubscribe` | basu/src/impl_sync.rs:97-101 | unsubscribing a freshly subscribed id restores the table; a type created by that subscribe remains with an empty registry |
| `Basu.UnsubscribePreservesWellFormed` | basu/src/impl_sync.rs:97-101 | unsubscribing keeps the table invariant |
| `Basu.DispatchEmptyRegistry` | basu/src/impl_sync.rs:143-147 | publishing to a type with no handlers succeeds, and success is its only admissible outcome |
| `Basu.DispatchSoleFailure` | basu/src/impl_sync.rs:144-146 | when exactly one handler fails, publish returns precisely that handler's error |
| `SyncBus.EventBus.constructor` | basu/src/lib.rs:78-82 | a new bus has an empty table: no type is listed and every count query is not-found |
| `SyncBus.EventBus.Subscribe` | basu/src/impl_sync.rs:39-63 | always `Ok` with an id never minted before; the new table is `WithHandler` of the old one; the invariant is kept |
| `SyncBus.EventBus.Unsubscribe` | basu/src/impl_sync.rs:90-106 | an unknown type gives `EventTypeNotFound` and leaves the table as it was; a known type gives `Ok` and the table becomes `WithoutHandler` of the old one |
| `SyncBus.EventBus.Publish` | basu/src/impl_sync.rs:135-151 | an unknown type gives `EventTypeNotFound`; otherwise the result is `Ok` iff every registered handler returns `Ok`, and an error is the very error some registered handler returned; the bus is not modified |
| `SyncBus.EventBus.List` | basu/src/impl_sync.rs:181-189 | always `Ok`: a list holding each known type exactly once and nothing else |
| `SyncBus.EventBus.GetHandlerCount` | basu/src/impl_sync.rs:206-219 | the registry's size for a known type, `EventTypeNotFound` otherwise |
| `SyncBus.EventBus.Clear` | basu/src/impl_sync.rs:250-258 | `Ok`; afterwards the table is empty and every type is not found; the minted ids stay minted |
| `AsyncBus.HandleAll` | basu/src/impl_async.rs:138-139 | exactly one invocation per registry entry: the pending results are keyed by exactly the registry's ids, each the outcome of that id's handler |
| `AsyncBus.TryJoinAll` | basu/src/impl_async.rs:140-143 | joint result is `Ok` iff every pending result is `Ok`; otherwise it is one of the failed results, passed on unchanged |
| `AsyncBus.EventBus.constructor` | basu/src/lib.rs:78-82 | a new bus has an empty table: every count query is not-found |
| `AsyncBus.EventBus.Subscribe` | basu/src/impl_async.rs:39-60 | no error path: returns an id never minted before; the new table is `WithHandler` of the old one |
| `AsyncBus.EventBus.Unsubscribe` | basu/src/impl_async.rs:87-104 | unknown type: `EventTypeNotFound`, table unchanged; known type: `Ok`, table becomes `WithoutHandler` of the old one |
| `AsyncBus.EventBus.Publish` | basu/src/impl_async.rs:133-147 | unknown type: `EventTypeNotFound`; otherwise `Ok` iff all handlers succeed, else some handler's own error; the bus is not modified |
| `AsyncBus.EventBus.List` | basu/src/impl_async.rs:177-181 | each known type exactly once and nothing else |
| `AsyncBus.EventBus.GetHandlerCount` | basu/src/impl_async.rs:197-207 | the registry's size for a known type, `EventTypeNotFound` otherwise |
| `AsyncBus.EventBus.Clear` | basu/src/impl_async.rs:238-242 | cannot fail; afterwards the table is empty and every type is not found |
| `Scenarios.SyncFirstSubscriber` | basu/src/tests/sync_test.rs:35-47 | on a new bus: subscribing A returns `Ok(a)`, the table becomes exactly `{"echo": {a: Print}}` (`Print` is the always-succeeding handler standing for A and B), publish returns `Ok`, the list is exactly `["echo"]` and the count is 1 |
| `Scenarios.SyncSecondSubscriber` | basu/src/tests/sync_test.rs:49-54 | with A registered: subscribing B returns `Ok(b)` with `b != a`, the table becomes exactly `{"echo": {a: Print, b: Print}}`, the count is 2 and publish returns `Ok` |
| `Scenarios.SyncUnsubscribeAndClear` | basu/src/tests/sync_test.rs:56-62 | unsubscribing A returns `Ok` and leaves count 1; clear returns `Ok` and afterwards the list is empty |
| `Scenarios.SyncEchoScenario` | basu/src/tests/sync_test.rs:32-63 | the whole blocking scenario: both subscribes are `Ok` with different ids; counts 1, 2, 1; both publishes, the unsubscribe and the clear are `Ok`; the list is `["echo"]`, then empty after clear |
| `Scenarios.AsyncFirstSubscriber` | basu/src/tests/async_test.rs:37-49 | on a new bus: subscribing A returns an id `a`, the table becomes exactly `{"echo": {a: Print}}` (`Print` is the always-succeeding handler standing for A and B), publish returns `Ok`, the list is exactly `["echo"]` and the count is 1 |
| `Scenarios.AsyncSecondSubscriber` | basu/src/tests/async_test.rs:51-56 | with A registered: subscribing B returns an id `b != a`, the table becomes exactly `{"echo": {a: Print, b: Print}}`, the count is 2 and publish returns `Ok` |
| `Scenarios.AsyncUnsubscribeAndClear` | basu/src/tests/async_test.rs:58-64 | unsubscribing A returns `Ok` and leaves count 1; after clear the list is empty |
| `Scenarios.AsyncEchoScenario` | basu/src/tests/async_test.rs:34-65 | the whole async scenario: counts 1, 2, 1; both publishes and the unsubscribe are `Ok`; the list is `["echo"]`, then empty after clear |

## Left out

- Locking and poisoning are not modelled. The model does not capture `Arc`/`Mutex` sharing or the `MutexPoisoned` error returns (for example basu/src/impl_sync.rs:40-43 and 47). In a sequential model every lock acquire succeeds, so the blocking variant never returns `MutexPoisoned`. The constructor still exists in `Errors.BasuError`.
- Parallel and concurrent dispatch are not modelled: neither rayon's `par_iter().try_for_each` nor tokio's joint polling. Dispatch is a sequential loop over the registry's key set in an unspecified order. The model claims only that the error is the error of some failing handler, never which one comes "first".
- `try_join_all` drops the futures still pending once one fails. Handler side effects are not modelled, so the model cannot tell a cancelled invocation from a completed one.
- Handler bodies are arbitrary user code (the test handlers print a line). A handler is modelled only by the result it returns for an event: `Handler` wraps a total function from events to results.
- `HandlerId::new` draws a random UUID v4. `IdSource` replaces it with a counter whose freshness is provable. Uniqueness therefore holds per bus in the model, where the crate has it process-wide with overwhelming probability.
- Each type's registry sits behind its own `Arc<Mutex<…>>`. The model makes it a plain map value inside the table. Those `Arc`s never leave the bus, so there is no aliasing to capture.
- `HashMap` iteration order is not modelled. `List` promises only membership and no duplicates, not an order.
- `get_handler_count` returns a `usize`. The model uses `nat`, because a registry cannot hold more handlers than memory allows.
- Feature selection is not modelled: the `compile_error!` guards of basu/src/lib.rs:32-36 are left out, and the two variants are simply two classes. The `thiserror`/`anyhow` formatting of basu/src/error.rs is left out too; `HandlerError` carries a string cause.
- The table lock is not released once the registry has been looked up. The code holds the table guard until the operation returns, including during handler invocation in `publish`. The model follows the code, though in a sequential model the difference cannot be observed.
