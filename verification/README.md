# Event-sourced todo lists, modelled in Dafny

This project models the core of `eventsourcing-todo`, a Go service that keeps
todo lists as event streams. The model covers these parts:

- **Values.** A list is created by a user. Each item is a trimmed text of at
  most 256 bytes, and a user ID is at most 128 bytes.
- **Events and aggregates.** Creating a list emits a `TodoListCreatedEvent`,
  and each item emits a `TodoAddedEvent`. The `TodoListAggregate` rebuilds its
  state by replaying its events. It refuses a second creation and allows at
  most three items per list. The older `TodoAggregate` knows only add events
  and has no cap.
- **Event store.** Events are stored as rows under a unique key
  (aggregate ID, version). A second writer of the same version gets an
  optimistic-lock conflict. Loads return the rows in ascending version order,
  through a registry of deserializers.
- **Transactions.** Each command runs inside a transaction. Hooks registered
  with `AfterCommit` run only after a successful commit; there they publish
  the new events on an in-process bus.
- **Projectors.** Two projectors build read-model views from the published
  events.
- **Use cases.** The command use cases create lists and add items. The add
  retries on a conflict, three attempts at most. The query use cases answer
  from a view or by replaying the events.

The model is in plain functions over immutable values:

- The event table is a map from aggregate ID to rows.
- The database, the bus subscribers and the "rest of the system" are type
  parameters. What a hook or handler does to them is a function parameter.
- Everything a run draws from outside (driver failures, fresh UUIDs, clock
  readings) is an explicit parameter:
  - `Env` in `UseCaseSteps`;
  - `ReadFaults` and the write-fault function in `EventStore`;
  - `Fresh` in `Events`.

Modules follow the source packages:

- `Errors` and `DomainErrors`: the error packages.
- `Strings` and `Uuids`: the parts of Go's `strings`, `fmt` and
  `github.com/google/uuid` that the core relies on.
- `Values`: the value objects.
- `Events` and `Deserializer`: the events and their stored form.
- `TodoListAggregate` and `TodoAggregate`: the two aggregates.
- `EventStore` and `Transaction`: the database layer.
- `EventBus`: the bus.
- `Views`, `InMemProjector`, `ViewRepository` and `PortProjector`: the read
  side.
- `Retry`, `UseCaseSteps`, `AddItemCommand`, `CreateCommand`, `TodoUseCase`,
  `QueryUseCase` and `ListQuery`: the use cases.

## Model

| member | source | states |
|---|---|---|
| Errors.CodeTextsDistinct | internal/errors/code.go:7-15 | the seven declared codes have pairwise distinct values ("U000" … "Q001"); `OptimisticLock` is used by the store but declared nowhere |
| Errors.ErrorString | internal/errors/errors.go:9-14 | an `*errors.Error` shows its message when it has one and its wrapped error's text otherwise; a `%w` wrap starts with its context and ends with the inner error's text; a plain error shows its text, and a MySQL error reads "Error <number>: <message>" |
| Errors.Unwrap | internal/errors/errors.go:16-18 | an `*errors.Error` unwraps to the error it carries, a `%w` wrap to its inner error, anything else to nil; each step yields a smaller error, so every chain ends |
| Errors.New | internal/errors/code.go:17-23 | the error carries the code, its text is the message, and it unwraps to an error with that same text |
| Errors.Wrap | internal/errors/code.go:25-31 | the error carries the code and unwraps to the wrapped error; its text is the message, or the wrapped error's text when the message is empty |
| Errors.WrapHidesInner | internal/errors/errors.go:9-14 | with a non-empty message, the text of a wrapped error does not depend on the inner error |
| Errors.ValueErrorShapes | internal/domain/value/domain_validation_error.go:10-21 | validation errors read exactly "invalid <field>: <message>" and not-found errors exactly "<resource> not found: <id>" |
| DomainErrors.FromOrdinal | internal/domain/errors/errors.go:12-20 | exactly the ordinals 0..6 name a constant, and each names the one `iota` gave it |
| DomainErrors.OrdinalsAreIota | internal/domain/errors/errors.go:12-20 | ordinal and constant are inverse to each other |
| DomainErrors.ErrorString | internal/domain/errors/errors.go:22-27 | a nil receiver gives ""; otherwise the text of the error `Unwrap` returns |
| DomainErrors.Unwrap | internal/domain/errors/errors.go:29-34 | a nil receiver gives nil, otherwise the inner error |
| DomainErrors.GetType | internal/domain/errors/errors.go:36-41 | a nil receiver gives `ErrorUnknown`, otherwise the stored type |
| DomainErrors.NewDomainError | internal/domain/errors/errors.go:43-45 | the type is kept and the text is the message |
| Strings.TrimSpace | internal/domain/value/todo_text.go:16 | the result is a slice of the input that neither starts nor ends with white space, and everything cut off is white space |
| Strings.TrimSpaceEmptyIff | internal/domain/value/todo_text.go:16-20 | the trimmed text is empty exactly when every byte of the input is white space |
| Strings.TrimSpaceIdempotent | internal/domain/value/todo_text.go:16 | trimming twice is the same as trimming once |
| Values.TrimBounded | internal/domain/value/todo_text.go:15-27 | the shared constructor shape: blank input gives the empty error, trimmed input over the bound gives the long error, otherwise the trimmed text is accepted; both directions are stated |
| Values.NewTodoText | internal/domain/value/todo_text.go:15-27 | blank text gives "todo text cannot be empty", a trimmed length over 256 gives the too-long error, and otherwise the value is the trimmed text |
| Values.NewUserId | internal/domain/value/user_id.go:15-27 | the same constructor shape with a 128-byte bound and the user-ID messages |
| Values.TrimBoundedIdempotent | internal/domain/value/todo_text.go:15-27 | re-validating an accepted value gives it back unchanged |
| Values.TodoTextIdempotent | internal/domain/value/todo_text.go:15-27 | a valid todo text is a fixed point of its constructor |
| Values.UserIdIdempotent | internal/domain/value/user_id.go:15-27 | a valid user ID is a fixed point of its constructor |
| Values.TodoTextLengthBoundary | internal/domain/value/todo_text.go:22-24 | for text without surrounding white space, 256 bytes pass and 257 fail |
| Values.UserIdLengthBoundary | internal/domain/value/user_id.go:22-24 | for IDs without surrounding white space, 128 bytes pass and 129 fail |
| Values.UserIdExample | internal/domain/value/user_id_test.go:21-24 | "  user123  " is accepted as "user123" |
| Uuids.Parse | internal/usecase/command/todo_add_item_command.go:53-56 | parsing succeeds exactly on the 36-character layout and gives the lower-case canonical text; every other length is rejected as "invalid UUID length: N" (the library also accepts 32-, 38- and 45-character forms, see "## Left out"), and a 36-character text with a bad character or misplaced dash as "invalid UUID format" |
| Uuids.ParseString | internal/usecase/todo.go:155-158 | printing a UUID and parsing it back gives the same UUID |
| Uuids.NilText | internal/domain/aggregate/todo.go:18-22 | the text of `uuid.Nil` is a canonical UUID text |
| Events.DiscriminatorsDistinct | internal/domain/event/todo_list_created_event.go:34-36 | each record type has one constant discriminator, and the two types differ |
| Events.KnownPrefix | internal/domain/aggregate/todo_list.go:91-98 | the longest prefix holding only the two record types; the event after it, if any, is foreign |
| Events.HistoryTexts | internal/domain/aggregate/todo_list.go:73-89 | a list history has one fewer text than events |
| Events.HistoryExtends | internal/domain/aggregate/todo_list.go:79-88 | an add event one version up with a new event ID extends a list history |
| Deserializer.Marshal | internal/infrastructure/database/eventstore/event_store_impl.go:47-50 | the stored document keeps the event's aggregate ID, event ID, time and version |
| Deserializer.Decode | internal/infrastructure/database/eventstore/deserializer/todo_added_deserializer.go:19-25 | corrupt data fails with the decoder's message; otherwise the result is a record of the decoder's own type, with the document's fields |
| Deserializer.Register | internal/infrastructure/database/eventstore/deserializer/event_deserializer_impl.go:30-32 | the decoder is keyed by its own event type and replaces any earlier entry; other keys are unchanged |
| Deserializer.NewRegistry | internal/infrastructure/database/eventstore/deserializer/event_deserializer_impl.go:19-28 | exactly the two discriminators are registered, each to its own decoder |
| Deserializer.Deserialize | internal/infrastructure/database/eventstore/deserializer/event_deserializer_impl.go:34-41 | an unregistered type fails with "unknown event type: <type>"; a registered one is decoded by its decoder |
| Deserializer.DiscriminatorsMatchRegistry | internal/infrastructure/database/eventstore/deserializer/event_deserializer_impl.go:19-32 | each record type's discriminator is registered, to a decoder of that same type |
| Deserializer.RoundTrip | internal/infrastructure/database/eventstore/deserializer/event_deserializer_impl.go:34-41 | deserializing a marshalled record under its discriminator gives the record back |
| Deserializer.RegisterOverwrites | internal/infrastructure/database/eventstore/deserializer/event_deserializer_impl.go:30-32 | registering under the same key twice keeps only the later decoder |
| TodoListAggregate.New | internal/domain/aggregate/todo_list.go:21-26 | a new aggregate has the nil ID, no items, version 0 and nothing buffered |
| TodoListAggregate.MarkEventsAsCommitted | internal/domain/aggregate/todo_list.go:44-46 | the buffer is emptied and nothing else changes |
| TodoListAggregate.Apply | internal/domain/aggregate/todo_list.go:91-117 | an unknown type fails with "unknown event type: %T" and leaves the state alone; a known one sets the version to the event's, sets the owner (creation) or appends the text (add), and is buffered exactly when new |
| TodoListAggregate.Hydrate | internal/domain/aggregate/todo_list.go:48-55 | replay never buffers; it succeeds exactly when every event is known, and otherwise fails with "failed to apply event" wrapping the first unknown event's error |
| TodoListAggregate.HydrateMeaning | internal/domain/aggregate/todo_list.go:48-55 | after replay the items are the texts of the known prefix, the version is its last event's, and the owner comes from its last creation event |
| TodoListAggregate.HydrateListHistory | internal/domain/aggregate/todo_list.go:48-55 | a stored list history replays to the list it describes: owner, one item per add event, last version, empty buffer |
| TodoListAggregate.HydrateAppend | internal/domain/aggregate/todo_list.go:48-55 | replaying a concatenation is replaying the parts in turn, stopping at a failure |
| TodoListAggregate.ExecuteCreate | internal/domain/aggregate/todo_list.go:57-71 | an aggregate with an ID fails with "todo list already exists" and changes nothing; otherwise one creation event at version 1 is buffered, and it sets the fresh ID and the user |
| TodoListAggregate.ExecuteAdd | internal/domain/aggregate/todo_list.go:73-89 | three or more items fail with "cannot add more than 3 todos per day" and change nothing; otherwise one add event at version + 1 is buffered, its text is appended, and the owner is kept |
| TodoListAggregate.CreateKeepsReplay | internal/domain/aggregate/todo_list.go:57-71 | after a create, the buffer replayed on the loaded state gives the committed state |
| TodoListAggregate.AddKeepsReplay | internal/domain/aggregate/todo_list.go:73-89 | after an add, the buffer replayed on the loaded state gives the committed state |
| TodoListAggregate.AddReplayRoundTrip | internal/domain/aggregate/todo_list.go:48-89 | loading a history, adding, then replaying the history followed by the buffered event from a new aggregate gives the committed aggregate |
| TodoListAggregate.CreateReplayRoundTrip | internal/domain/aggregate/todo_list.go:57-71 | a newly created list's buffer replays to the committed list |
| TodoListAggregate.HydrationHasNoCap | internal/domain/aggregate/todo_list.go:48-55 | replay applies every add event of a known log, however many there are |
| TodoListAggregate.LifeCycleExample | internal/domain/aggregate/todo_list_test.go:130-160 | create, then three adds succeed and a fourth is refused with the cap error |
| TodoAggregate.New | internal/domain/aggregate/todo.go:18-22 | nil ID, version 0, nothing buffered |
| TodoAggregate.MarkEventsAsCommitted | internal/domain/aggregate/todo.go:36-38 | the buffer is emptied and nothing else changes |
| TodoAggregate.Apply | internal/domain/aggregate/todo.go:63-83 | only add events are known; the ID is taken from the first event when unset, and the version moves to the event's |
| TodoAggregate.Hydrate | internal/domain/aggregate/todo.go:40-47 | replay succeeds exactly on an all-add log; otherwise it fails wrapping the first other event's error |
| TodoAggregate.HydrateMeaning | internal/domain/aggregate/todo.go:40-47 | the version is the last applied event's, and an identity once set never changes |
| TodoAggregate.ExecuteAdd | internal/domain/aggregate/todo.go:49-61 | never fails; buffers one add event at version + 1 with no user ID |
| TodoAggregate.NoCap | internal/domain/aggregate/todo.go:49-61 | any number of adds succeed, buffering one event each |
| TodoAggregate.ReplayRoundTrip | internal/domain/aggregate/todo.go:40-61 | the buffer of a new aggregate replays to its committed state |
| TodoAggregate.CreationEventIsUnknown | internal/domain/aggregate/todo.go:63-77 | a list-creation event stops this aggregate's replay with "unknown event type: event.TodoListCreatedEvent" |
| Transaction.GetTx | internal/infrastructure/database/transaction/transaction.go:72-78 | fails with "transaction not found in context" exactly when the context has no transaction |
| Transaction.WithTx | internal/infrastructure/database/transaction/transaction.go:80-82 | `GetTx` on the result finds the transaction |
| Transaction.AfterCommit | internal/infrastructure/database/transaction/transaction.go:32-34 | the hook is appended after the earlier ones |
| Transaction.RunHooks | internal/infrastructure/database/transaction/transaction.go:63-67 | hooks run in order; on success every hook ran, on failure at least one did |
| Transaction.HooksStopAtFirstError | internal/infrastructure/database/transaction/transaction.go:63-67 | the hooks before the failing one all succeeded, and the failing hook's error is returned |
| Transaction.RunTx | internal/infrastructure/database/transaction/transaction.go:36-70 | a begin error or a body error changes nothing; a commit error drops the writes; after a commit the writes stay and the hooks' error is returned |
| Transaction.PendingHooksDiscarded | internal/infrastructure/database/transaction/transaction.go:36-37 | hooks left from before the call never run; hooks run only after a begin, a clean body and a commit |
| Transaction.CommitIsDurable | internal/infrastructure/database/transaction/transaction.go:53-67 | after a commit the body's writes stay whatever the hooks do; without a commit the database is untouched and an error is returned |
| EventStore.RowOf | internal/infrastructure/database/eventstore/event_store_impl.go:46-59 | the row keeps the event's ID, discriminator, version and encoded payload |
| EventStore.DuplicateEntry | internal/infrastructure/database/eventstore/event_store_impl.go:71-75 | the driver's answer to a second row with the same key carries MySQL's duplicate-entry number 1062 |
| EventStore.Insert | internal/infrastructure/database/eventstore/event_store_impl.go:52-59 | a driver fault fails; a version already stored fails with the duplicate-entry error; otherwise the row is appended |
| EventStore.IsDuplicateKey | internal/infrastructure/database/eventstore/event_store_impl.go:71-78 | MySQL's duplicate-entry error anywhere on the chain counts, and so does any error whose lower-cased text contains "duplicate" or "constraint failed"; nothing else does, so without the driver error a text shorter than "duplicate" never counts |
| EventStore.SaveError | internal/infrastructure/database/eventstore/event_store_impl.go:60-65 | a duplicate key gives the optimistic-lock code and "version conflict for aggregate <id> version <v>", anything else the repository code and "failed to save event"; the result unwraps to the driver's error |
| EventStore.SaveErrorClassifies | internal/infrastructure/database/eventstore/event_store_impl.go:60-65 | a duplicate key is reported with the optimistic-lock code and "version conflict for aggregate <id> version <v>", anything else as "failed to save event"; the driver error stays on the chain |
| EventStore.SaveRows | internal/infrastructure/database/eventstore/event_store_impl.go:46-66 | the stored rows stay in place and the rows of a prefix of the batch follow them in order; the loop succeeds exactly when the whole batch is appended |
| EventStore.SaveRowsStops | internal/infrastructure/database/eventstore/event_store_impl.go:46-66 | the loop stops exactly at the first failing insert and returns that insert's error |
| EventStore.SaveEvents | internal/infrastructure/database/eventstore/event_store_impl.go:29-69 | with no transaction it fails with that error and writes nothing; otherwise the loop's rows are written under the given aggregate ID, other aggregates are unchanged, and a failure at event n is reported as `SaveError` for that event's version |
| EventStore.SaveAppendsAll | internal/infrastructure/database/eventstore/event_store_impl.go:29-69 | a successful save appends one row per event, in order, after the stored rows |
| EventStore.SaveFreshSucceeds | internal/infrastructure/database/eventstore/event_store_impl.go:46-66 | versions above every stored one, strictly ascending and without faults, always insert |
| EventStore.SavePreservesValidity | internal/infrastructure/database/eventstore/event_store_impl.go:29-69 | any save, successful or not, keeps the unique key and keeps payloads consistent with their version column |
| EventStore.SortRowsPermutes | internal/infrastructure/database/eventstore/event_store_impl.go:86-91 | the sort is a permutation of the rows |
| EventStore.SortRowsAscending | internal/infrastructure/database/eventstore/event_store_impl.go:86-91 | under the unique key, the sorted versions are strictly ascending |
| EventStore.AscendingSortsToItself | internal/infrastructure/database/eventstore/event_store_impl.go:86-91 | rows already in version order come back unchanged |
| EventStore.ScanRows | internal/infrastructure/database/eventstore/event_store_impl.go:100-118 | on success there is one event per remaining row, each the decoding of its row; any failure carries the `QueryError` code |
| EventStore.ScanSucceedsIff | internal/infrastructure/database/eventstore/event_store_impl.go:103-118 | the loop succeeds exactly when every remaining row scans and decodes |
| EventStore.LoadEvents | internal/infrastructure/database/eventstore/event_store_impl.go:80-129 | no transaction fails with that error and a failed query with "failed to load events"; every failure is one of those or carries the `QueryError` or `NotFound` code; no rows gives NotFound "todo list not found"; success is never empty and holds one decoded event per row in version order |
| EventStore.LoadIsOrdered | internal/infrastructure/database/eventstore/event_store_impl.go:86-91 | on a valid table, loaded versions are strictly ascending |
| EventStore.LoadStored | internal/infrastructure/database/eventstore/event_store_impl.go:80-129 | loading rows stored for known events in ascending versions gives those events back |
| EventStore.SaveThenLoad | internal/infrastructure/database/eventstore/event_store_impl.go:29-129 | appending ascending new versions after a stored history and loading gives the history followed by the new events |
| EventStore.ConcurrentAppendConflicts | internal/infrastructure/database/eventstore/event_store_impl.go:60-62 | two writers appending the same next version: the second gets the optimistic-lock conflict and the first's row stays |
| EventStore.HistoryReadable | internal/infrastructure/database/eventstore/event_store_impl.go:80-129 | a list history has known types and ascending versions, so it can be read back |
| EventBus.New | internal/infrastructure/bus/eventbus.go:14-18 | no handlers |
| EventBus.Subscribe | internal/infrastructure/bus/eventbus.go:31-34 | the handler is appended and no error is returned |
| EventBus.ScheduleLength | internal/infrastructure/bus/eventbus.go:20-29 | the event-major schedule holds events × handlers calls |
| EventBus.Publish | internal/infrastructure/bus/eventbus.go:20-29 | the event-major schedule names only existing events and handlers, and the dispatch is the reference dispatcher run over it |
| EventBus.PublishFollowsSchedule | internal/infrastructure/bus/eventbus.go:20-29 | the nested loops equal the reference dispatcher run over the event-major schedule |
| EventBus.PublishOutcome | internal/infrastructure/bus/eventbus.go:20-29 | without an error every handler saw every event, in event-major order |
| EventBus.StopsAtFirstError | internal/infrastructure/bus/eventbus.go:23-26 | every call before the last succeeded, and the last call's error is returned |
| Views.Started | internal/infrastructure/projector/inmemory_todo_projector.go:77-84 | a creation event starts a view with no items and the event's owner, version and time |
| Views.Appended | internal/infrastructure/projector/inmemory_todo_projector.go:95-107 | an add event appends its text and takes the event's version and time; the owner is kept |
| InMemProjector.New | internal/infrastructure/projector/inmemory_todo_projector.go:30-35 | no views and no events seen |
| InMemProjector.ApplyToView | internal/infrastructure/projector/inmemory_todo_projector.go:75-111 | a creation event starts a view; an add to no view gives none; an add whose version is not newer is ignored, otherwise appended; other events leave the view |
| InMemProjector.GetList | internal/infrastructure/projector/inmemory_todo_projector.go:62-73 | a view exactly when one is stored for the ID |
| InMemProjector.Handle | internal/infrastructure/projector/inmemory_todo_projector.go:37-60 | never an error; the event is marked seen; a seen event changes nothing; other lists are unchanged; otherwise the applied view is stored unless it is nil |
| InMemProjector.HandleIdempotent | internal/infrastructure/projector/inmemory_todo_projector.go:43-47 | handling an event twice is the same as handling it once |
| InMemProjector.EarlyAddIsLost | internal/infrastructure/projector/inmemory_todo_projector.go:43-56 | an add that arrives before its creation is dropped for good |
| InMemProjector.OutOfOrderAddIsIgnored | internal/infrastructure/projector/inmemory_todo_projector.go:91-93 | an older add that arrives after a newer one never appears |
| InMemProjector.RecreationResets | internal/infrastructure/projector/inmemory_todo_projector.go:77-84 | a second creation event replaces the view and drops its items |
| InMemProjector.ProjectionOfHistory | internal/infrastructure/projector/inmemory_todo_projector.go:37-111 | projecting any prefix of an unseen list history gives the owner, one item per add event in order, and the last version |
| InMemProjector.ProjectionMatchesReplay | internal/infrastructure/projector/inmemory_todo_projector.go:37-111 | the projected view has the items and version that aggregate replay of the same history gives |
| InMemProjector.Start | internal/infrastructure/projector/inmemory_todo_projector.go:37-60 | one handler is subscribed and no error is returned |
| InMemProjector.PublishProjects | internal/infrastructure/projector/inmemory_todo_projector.go:37-60 | publishing on a bus where the projector is subscribed, however many times, projects the events in order and never fails |
| InMemProjector.OfferHandlesOnce | internal/infrastructure/projector/inmemory_todo_projector.go:43-47 | several copies of the handler handle an event once |
| ViewRepository.New | internal/infrastructure/projector/todo/inmemory_repository.go:10-14 | empty |
| ViewRepository.Get | internal/infrastructure/projector/todo/inmemory_repository.go:16-26 | a view exactly when a non-nil one is stored under the key |
| ViewRepository.Save | internal/infrastructure/projector/todo/inmemory_repository.go:28-34 | never fails, and the key is present afterwards, nil included |
| ViewRepository.Delete | internal/infrastructure/projector/todo/inmemory_repository.go:36-42 | never fails, and the key is absent afterwards, whether it was present or not |
| ViewRepository.SaveThenGet | internal/infrastructure/projector/todo/inmemory_repository.go:16-34 | a saved view reads back as saved, and other keys are unchanged |
| ViewRepository.DeleteThenGet | internal/infrastructure/projector/todo/inmemory_repository.go:16-42 | a deleted key reads nil, and other keys are unchanged |
| ViewRepository.SaveNilIsDelete | internal/infrastructure/projector/todo/inmemory_repository.go:28-42 | saving nil and deleting cannot be told apart through `Get` |
| ViewRepository.SaveOverwrites | internal/infrastructure/projector/todo/inmemory_repository.go:28-34 | the last save to a key wins |
| PortProjector.New | internal/infrastructure/projector/todo/todo_projector.go:18-23 | the store is kept and no events are seen |
| PortProjector.Current | internal/infrastructure/projector/todo/todo_projector.go:36-43 | NotFound means no view; any other store error is returned |
| PortProjector.ApplyAsWritten | internal/infrastructure/projector/todo/todo_projector.go:61-88 | a creation event replaces any view with an empty one at its version; an add event appends its text and takes its version whatever the view's version was; other events leave the view as it is |
| PortProjector.HandleAsWritten | internal/infrastructure/projector/todo/todo_projector.go:25-54 | on every input where the source does not dereference nil: the event is marked seen; a seen or foreign event writes nothing and returns nil; for a new known event, a store read error other than NotFound is returned with nothing written, and otherwise the applied view is upserted and the upsert's error returned |
| PortProjector.DerefIsReachable | internal/infrastructure/projector/todo/todo_projector.go:71-84 | an add event for a list the store has no view of reaches the nil dereference |
| PortProjector.Handle | internal/infrastructure/projector/todo/todo_projector.go:25-54 | as written, except that an add without a view gives NotFound "todo list not found" and writes nothing |
| PortProjector.MissingViewIsNotFound | internal/infrastructure/projector/todo/todo_projector_test.go:134-144 | an add without a view gives the NotFound error the handler tests expect |
| PortProjector.FailureIsNotRetried | internal/infrastructure/projector/todo/todo_projector.go:26-30 | an event is marked seen before anything can fail, so a failed event is skipped on redelivery |
| PortProjector.NoVersionGate | internal/infrastructure/projector/todo/todo_projector.go:71-84 | a stale add still appends its item |
| PortProjector.AgreesWithInMemory | internal/infrastructure/projector/todo/todo_projector.go:25-88 | over a map store, both projectors keep the same views and seen sets event by event, except for a stale add |
| PortProjector.StaleAddDiverges | internal/infrastructure/projector/todo/todo_projector.go:71-84 | a stale add appends here and is ignored by the in-memory projector |
| PortProjector.Start | internal/infrastructure/projector/todo/todo_projector.go:56-59 | one handler is subscribed and no error is returned |
| Retry.RetryFrom | internal/usecase/command/todo_add_item_command.go:42-121 | at most the remaining attempts are made, each wait is (attempt + 1) × 10 ms, and a success or a non-retryable error ends the loop |
| Retry.Retry | internal/usecase/command/todo_add_item_command.go:38-124 | with no attempt the state is unchanged and the error is "failed after N retries" wrapping nil; otherwise 1 to maxRetries attempts are made, with the i-th wait (i + 1) × 10 ms |
| Retry.RetryFollowsAttempts | internal/usecase/command/todo_add_item_command.go:112-120 | every attempt before the last failed with a retryable error, and the last attempt's result is returned |
| Retry.PersistentFailureExhausts | internal/usecase/command/todo_add_item_command.go:112-123 | an attempt that always fails retryably is tried exactly maxRetries times, waits 10, 20, … ms, and returns the last error unwrapped |
| Retry.IsOptimisticLockError | internal/usecase/command/todo_add_item_command.go:126-128 | the substring test accepts an error reading exactly "optimistic lock error" and rejects every shorter text |
| Retry.FailureKeepsFrom | internal/usecase/command/todo_add_item_command.go:42-121 | if no failed attempt changes a part of the state, a loop that ends in failure leaves that part as it found it |
| Retry.FailureKeeps | internal/usecase/command/todo_add_item_command.go:38-124 | the same for the whole loop, including the case of no attempt |
| Retry.SuccessFrom | internal/usecase/command/todo_add_item_command.go:108-110 | if every successful attempt leaves a state with some property, a loop that ends in success has it |
| Retry.SuccessHolds | internal/usecase/command/todo_add_item_command.go:38-124 | the same for the whole loop |
| Retry.ConflictIsNotRecognised | internal/usecase/command/todo_add_item_command.go:126-128 | the substring test never accepts the store's conflict error |
| Retry.ConflictIsNotRetried | internal/usecase/command/todo_add_item_command.go:112-120 | as written, a conflict on the first attempt ends the loop with that error |
| Retry.ConflictIsRecognised | internal/infrastructure/database/eventstore/event_store_impl.go:60-65 | the code-based test accepts the conflict error and rejects the store's other failures |
| Retry.ConflictIsRetried | internal/usecase/command/todo_add_item_command.go:112-118 | with the code-based test, a first-attempt conflict leads to a second attempt after 10 ms |
| UseCaseSteps.LoadList | internal/usecase/command/todo_add_item_command.go:53-73 | a bad ID, a failed load and a failed replay each fail with their own error; otherwise the parsed ID and the replayed list |
| UseCaseSteps.EmptyHistoryUnreachable | internal/usecase/command/todo_add_item_command.go:63-68 | the error given for an empty history is never returned, because the store reports a missing list as NotFound itself |
| UseCaseSteps.LoadListHistory | internal/usecase/command/todo_add_item_command.go:53-73 | a stored list history loads and replays to the list it describes |
| UseCaseSteps.AddSteps | internal/usecase/command/todo_add_item_command.go:47-103 | the checks run in the order text, then ID parse, load and replay, then user ID, each failing with its own error; success implies a valid text and a valid user ID, and buffers exactly one add event, for the input's list and text, at the list's new version |
| UseCaseSteps.SaveAdd | internal/usecase/command/todo_add_item_command.go:80-92 | three items fail with the cap error; on success one add event one version up is buffered, its text appended, and the list's ID kept |
| UseCaseSteps.AddAppendsOneEvent | internal/usecase/command/todo_add_item_command.go:47-103 | adding to a stored list with fewer than three items writes exactly one add event, one version up, and a load returns the history followed by it |
| UseCaseSteps.AddRefusedAtCap | internal/usecase/command/todo_add_item_command.go:86-88 | a list with three items refuses the add, and nothing is written |
| UseCaseSteps.CreateSteps | internal/usecase/command/todo_list_create_command.go:40-60 | an invalid user ID fails with its error; on success the list has the fresh ID, version 1 and exactly the creation event buffered; any other failure is the store's error for that event |
| UseCaseSteps.CreateStoresHistory | internal/usecase/command/todo_list_create_command.go:40-60 | creating under a fresh ID stores the creation event at version 1 as the list's whole history |
| UseCaseSteps.ReadSteps | internal/usecase/todo.go:155-185 | succeeds exactly when the list loads and replays; the update time is the zero time |
| UseCaseSteps.ReadListHistory | internal/usecase/todo.go:151-194 | reading a stored list gives its owner and one item per add event, in order |
| UseCaseSteps.OutputOf | internal/usecase/command/todo_add_item_command.go:94-96 | the outputs are the list's version and its new events |
| AddItemCommand.Body | internal/usecase/command/todo_add_item_command.go:47-106 | a failed step returns its error and writes nothing; on success the writes are kept and one hook publishes the new events |
| AddItemCommand.Outputs | internal/usecase/command/todo_add_item_command.go:94-96 | blank unless the save succeeded, otherwise the list's outputs |
| AddItemCommand.AttemptRollsBack | internal/usecase/command/todo_add_item_command.go:47-106 | an attempt that does not commit leaves the table and the rest of the system unchanged and returns the begin, body or commit error |
| AddItemCommand.AttemptKeepsWrites | internal/usecase/command/todo_add_item_command.go:98-101 | a committed attempt keeps the body's writes, and its error is the hooks' |
| AddItemCommand.ExecuteWith | internal/usecase/command/todo_add_item_command.go:38-124 | the presenter gets a failure exactly when the retry loop ends with an error; a success presents the new version and the one add event written at it, for the input's list and text; with a bus that accepts every publication, a failure stored and published nothing |
| AddItemCommand.AttemptSuccessPresents | internal/usecase/command/todo_add_item_command.go:94-110 | every successful attempt leaves the outputs of the add it saved |
| AddItemCommand.LoopFailureKeeps | internal/usecase/command/todo_add_item_command.go:38-124 | with a bus that accepts every publication, a loop that ends in failure left the table and the rest of the system unchanged |
| AddItemCommand.AttemptFailureKeeps | internal/usecase/command/todo_add_item_command.go:47-106 | with a bus that accepts every publication, a failed attempt did not commit, so it changed nothing |
| AddItemCommand.ExecuteAsWritten | internal/usecase/command/todo_add_item_command.go:38-128 | with the substring classifier: a success presents the one add event written; with a bus that accepts every publication, a failure changed nothing |
| AddItemCommand.Execute | internal/usecase/command/todo_add_item_command.go:38-124 | with the code-based classifier: a success presents the one add event written; with a bus that accepts every publication, a failure changed nothing |
| AddItemCommand.PublishFailureAfterCommit | internal/usecase/command/todo_add_item_command.go:98-101 | a failed publication is reported as a failure although the event is already committed |
| AddItemCommand.AttemptCommits | internal/usecase/command/todo_add_item_command.go:47-106 | a committed attempt keeps the steps' table, sets the list's outputs, and publishes the new events once |
| AddItemCommand.AttemptSucceedsOnce | internal/usecase/command/todo_add_item_command.go:108-110 | a first attempt that succeeds is the whole run, and the presenter gets its outputs |
| AddItemCommand.AttemptFailsOnce | internal/usecase/command/todo_add_item_command.go:120 | a first attempt that fails with a non-conflict error is the whole run, and that error is presented |
| AddItemCommand.ExecuteAddsItem | internal/usecase/command/todo_add_item_command.go:38-124 | adding to a stored list under the cap, with no faults: one event stored after the history, published once, and presented with version + 1 |
| AddItemCommand.ExecuteRefusesAtCap | internal/usecase/command/todo_add_item_command.go:86-88 | at the cap the cap error is presented, and nothing is stored or published |
| AddItemCommand.ConflictPresentedAsWritten | internal/usecase/command/todo_add_item_command.go:114-120 | as written, a first-attempt conflict is presented at once |
| AddItemCommand.ConflictRetried | internal/usecase/command/todo_add_item_command.go:114-118 | with the code-based test, a first-attempt conflict is followed by the loop from attempt 1, from the state the first attempt left |
| CreateCommand.Body | internal/usecase/command/todo_list_create_command.go:40-67 | a failed step returns its error and writes nothing; on success one hook publishes the creation event |
| CreateCommand.Outputs | internal/usecase/command/todo_list_create_command.go:58-60 | blank unless the save succeeded |
| CreateCommand.Execute | internal/usecase/command/todo_list_create_command.go:34-77 | a transaction that cannot begin presents its error and changes nothing; a success presents the fresh ID, version 1 and the creation event; with a bus that accepts the publication, a failure stored and published nothing |
| CreateCommand.RollsBack | internal/usecase/command/todo_list_create_command.go:72-74 | without a commit nothing is stored or published, and the error is presented |
| CreateCommand.Commits | internal/usecase/command/todo_list_create_command.go:62-76 | a commit keeps the steps' table and publishes once; the presenter gets the outputs unless publishing failed |
| CreateCommand.ExecuteCreatesList | internal/usecase/command/todo_list_create_command.go:34-77 | a valid user and a fresh ID: the creation event is the stored history, published once, and presented with version 1 |
| CreateCommand.InvalidUserRefused | internal/usecase/command/todo_list_create_command.go:40-43 | an invalid user ID is presented as its validation error, and nothing changes |
| TodoUseCase.CreateBody | internal/usecase/todo.go:38-64 | registers nothing; a failed step writes nothing |
| TodoUseCase.CreateTodoList | internal/usecase/todo.go:36-70 | on success the new ID is returned; on error the table is unchanged and no ID is returned |
| TodoUseCase.CreateStoresList | internal/usecase/todo.go:36-70 | a valid user and a fresh ID store the creation event as the whole history |
| TodoUseCase.AddBody | internal/usecase/todo.go:80-127 | registers nothing; a failed step writes nothing |
| TodoUseCase.AddTodoWithRetry | internal/usecase/todo.go:76-145 | with no attempt the table is unchanged and the final error wraps nil; whenever an error is returned no attempt committed, so the table is unchanged |
| TodoUseCase.AddAttemptFailureKeeps | internal/usecase/todo.go:80-131 | no hook can fail in this use case, so a failed attempt leaves the table it started from |
| TodoUseCase.AddTodoAsWritten | internal/usecase/todo.go:72-74 | with the substring classifier, a failed add leaves the table unchanged |
| TodoUseCase.AddTodo | internal/usecase/todo.go:72-74 | with the code-based classifier, a failed add leaves the table unchanged |
| TodoUseCase.NoAttemptMessage | internal/usecase/todo.go:144 | that error reads "failed after 0 retries: %!w(<nil>)" |
| TodoUseCase.AddAttemptRollsBack | internal/usecase/todo.go:80-127 | an attempt that does not commit leaves the table unchanged and returns the error that stopped it |
| TodoUseCase.AddAttemptCommits | internal/usecase/todo.go:80-131 | a committed attempt keeps the writes and succeeds |
| TodoUseCase.AttemptsAgree | internal/usecase/todo.go:80-127 | each attempt stores and fails exactly like the same attempt of the add-item command, when publishing succeeds |
| TodoUseCase.SameSteps | internal/usecase/todo.go:96-98 | the two empty-history errors never surface, so the steps agree |
| TodoUseCase.ReadBody | internal/usecase/todo.go:153-185 | writes nothing, and fails exactly when the read steps fail |
| TodoUseCase.GetTodoList | internal/usecase/todo.go:151-194 | a result comes exactly when there is no error, with the zero update time |
| TodoUseCase.UnknownListNotFound | internal/usecase/todo.go:158-167 | a well-formed ID the store has no events for gives NotFound "todo list not found" and no result |
| TodoUseCase.ReadReturnsHistory | internal/usecase/todo.go:151-194 | a stored list reads back as its owner and one item per add event |
| QueryUseCase.FromView | internal/usecase/query/todo_query_usecase.go:34-48 | the view's owner and item texts, with the zero time |
| QueryUseCase.GetTodoList | internal/usecase/query/todo_query_usecase.go:33-92 | a result comes exactly when there is no error |
| QueryUseCase.UnknownListNotFound | internal/usecase/query/todo_query_usecase.go:58-65 | a list neither the projection nor the store knows gives NotFound "todo list not found" and no result |
| QueryUseCase.ProjectionShadowsStore | internal/usecase/query/todo_query_usecase.go:34-48 | once a view exists, the answer does not depend on the table or the driver |
| QueryUseCase.AnswersFromProjectedPrefix | internal/usecase/query/todo_query_usecase.go:34-48 | a projector that has seen n events of a history answers with those n events' items, however many the store holds |
| QueryUseCase.PathsAgree | internal/usecase/query/todo_query_usecase.go:33-92 | with the whole history projected, the view path and the replay path give the same answer |
| ListQuery.Query | internal/usecase/query/todo_list_query.go:26-44 | "todo list not found" exactly when there is no view; otherwise the view's items |
| ListQuery.QueryOverRepository | internal/usecase/query/todo_list_query.go:26-44 | over the view repository, a saved view is answered, and a deleted or nil-saved one is not found |

## Left out

- I/O is abstracted:
  - SQL and the MySQL driver are replaced by a map of rows, with driver failures as parameters.
  - JSON becomes a flat document with every field.
  - `created_at` is never read back, so it is not modelled.
- Mutexes are left out; they only serialise calls.
- `time.Sleep` is left out; the retry loop returns the delays it would wait.
- `context.Context` is modelled only as the transaction it may carry.
- `context.Background()` in the hooks is not modelled.
- The wall clock and `uuid.New()` are parameters (`Fresh`, `Env`), not drawn.
- Uuids.Parse: accepts only the 36-character form. `uuid.Parse` also accepts 32 hex digits, the braced 38-character form and the 45-character `urn:uuid:` form; the model rejects them as "invalid UUID length: N".
- White space and letter case are ASCII-only. Unicode white space and case folding are not modelled.
- Strings are byte sequences, one char per byte.
- The presenters, views, HTTP handlers, router, container and configuration are outside the core and not modelled.
- The item IDs and times `entity.NewTodoItem` draws are never read by the core; items are their texts.
- Handler goroutines do not exist; the bus is synchronous, as in the source.
- `ViewRepository`: the pointer copies are values here, so their isolation is implicit rather than stated.
- Deserializer.Marshal: `json.Marshal`'s error return (event_store_impl.go:47-50) is not modelled; it cannot fail on these plain records, so the marshalled document is total.
- Errors.HasCode: `errors.IsCode`, which todo_projector.go:38 and the presenters call, is declared nowhere in internal/errors (code.go has only `New` and `Wrap`, errors.go only `Error` and `Unwrap`). The model assumes it means "the first `*errors.Error` on the unwrap chain carries the code", as `errors.As` would find it. `PortProjector.Current` and `Retry.IsConflict` rest on that meaning.
- PortProjector.HandleAsWritten: requires that the nil dereference is not reached. On that input the source panics, which a function cannot return; `DerefIsReachable` shows the input exists.

Some points where the code was followed over the service's documentation:

- `TodoAddedEvent` carries a user ID and text, as the aggregate sets them. The record type in todo_added_event.go is read as the code uses it.
- The query use case calls `Get(ctx, id)` while `ports.TodoListQuery` declares `Get(id)`. The model's `get` takes only the ID.
- Neither read path ever sets `UpdatedAt`. Outputs carry the zero time.
- The empty-history checks of both add use cases are dead code: the store reports a missing list as NotFound before they run (`UseCaseSteps.EmptyHistoryUnreachable`).

Some points where the code was followed over the repository's own tests:

- internal/domain/aggregate/todo_test.go:66-80 expects a fourth add on a `TodoAggregate` to fail with the cap error and leave three events. todo.go has no cap, so the fourth add succeeds (`TodoAggregate.NoCap`).
- internal/infrastructure/database/eventstore/event_store_impl_test.go:212-216 expects loading an unknown aggregate to give no events and no error. The code returns NotFound "todo list not found" (`EventStore.LoadEvents`).
- internal/domain/value/todo_text_test.go:25-32 expects a blank text to give a `DomainError` of type `InvalidParameter` reading "todo_text cannot be empty". The code returns the plain error "todo text cannot be empty" (`Values.NewTodoText`).
- internal/domain/aggregate/todo_list_test.go:26-31 expects an empty user ID to give version 0, no events and no error. `ExecuteCreateTodoListCommand` does not check the user, so it creates the list at version 1 with one event (`TodoListAggregate.ExecuteCreate`).

## Findings

| source | as written | input that shows it | evidently intended | confidence | as-written member | corrected member |
|---|---|---|---|---|---|---|
| internal/usecase/command/todo_add_item_command.go:126-128 | retries only errors whose text contains "optimistic lock error"; the store's conflict text is "version conflict for aggregate <id> version <v>", which has no 'k' (the same test is at internal/usecase/todo.go:147-149) | a concurrent writer already stored version v, so the first attempt's insert hits the unique key | a conflict is recognised by its `OptimisticLock` code, and the add is retried after 10 ms | high (not executed) | Retry.ConflictIsNotRecognised, Retry.ConflictIsNotRetried, AddItemCommand.ConflictPresentedAsWritten | Retry.ConflictIsRecognised, Retry.ConflictIsRetried, AddItemCommand.ConflictRetried |
| internal/infrastructure/projector/todo/todo_projector.go:71-84 | `applyToView` reads `view.Items` of a nil view when the store has no view for an add event's aggregate | a new `TodoAddedEvent` for an aggregate the store answers NotFound for | NotFound "todo list not found", as todo_projector_test.go:134-144 expects | high (not executed) | PortProjector.DerefIsReachable | PortProjector.Handle, PortProjector.MissingViewIsNotFound |
