# Regalo event store: save, flush and load

This project models the persistence contract of Regalo's event store, as
`PersistenceTests` states it for `EventStoreEventStore`. The store keeps one
ordered, append-only sequence of events per stream id. It has two parts:

- a staging buffer keyed by stream id, which `Save` fills;
- a committed log, which `Flush` writes to after an optimistic-concurrency check.

`Load(id, bound)` reads committed events only. It returns "no result" (`null`
in C#) for a stream that does not exist. It returns the events up to an
inclusive version bound. It fails with out-of-range (`ArgumentOutOfRangeException`)
for a bound past the last committed ordinal, and always for the write-only
`NoStream` sentinel. That check comes before the existence check.

Files:

- `wrappers.dfy`: `Option`, `Outcome`, `Result`.
- `event_log.dfy`: the version token `Version = NoStream | Max | At(n)`, store
  errors, the `EventStream` read result, the committed `Log`, the concurrency
  check `Accepts` and the per-stream `Append`.
- `event_store.dfy`: the staged entry `Pending`, the specification functions
  `Staged` (the buffer after a save) and `Appended` (the log after a
  successful flush), and the class `Store` with `Save`, `Flush` and `Load`.
- `history.dfy`: sequences of `Save`/`Flush` calls as values (`Apply`, `Run`),
  with lemmas that range over all such sequences.
- `persistence_tests.dfy`: one verified method per `[Test]` of the fixture.
  The backend, ids and events are parameters, so each scenario holds for every choice.

Design decisions where the tests say nothing:

- `Flush` is all or nothing across streams. If every staged stream passes its
  check, all are appended and the buffer is cleared. Otherwise nothing is
  committed, and `ConcurrencyConflict` reports the set of every failing stream.
  The staged entries of all those streams are discarded, because they were written
  against a stale version. The entries of the streams that passed stay staged, so
  the next flush commits them. A caller retries a conflicting stream by loading it
  and saving again at the version it read.
- A second `Save` to a stream already staged appends its events after the staged
  ones and keeps the expected version of the first `Save`.
- The concurrency check accepts `NoStream` only for an absent stream and an
  ordinal only when it equals the current version. It never accepts `Max`. The
  tests never exercise this check: they only flush `NoStream` saves to fresh
  streams. The rows below that are about the check are design decisions; the
  lines they cite only show the `NoStream` save and the flush.
- A store is created over a backend that may already hold other streams. Each
  test uses a stream id the backend does not hold yet.
- The implementation class `EventStoreEventStore` is not part of this model.

## Model

| member | source | states |
|---|---|---|
| `EventLog.CurrentVersion` | Inforigami.Regalo.EventStore.Tests.Unit/PersistenceTests.cs:222-226 | a stream's version is absent exactly when the stream does not exist, and otherwise is the ordinal of its last committed event |
| `EventLog.Append` | Inforigami.Regalo.EventStore.Tests.Unit/PersistenceTests.cs:79-80 | appending adds the events after the stream's committed ones, creates the stream only for a non-empty batch, and leaves every other stream unchanged |
| `EventLog.AppendExtends` | Inforigami.Regalo.EventStore.Tests.Unit/PersistenceTests.cs:79-80 | design decision (the lines show only the `NoStream` save and flush): an accepted append only extends the log, and afterwards the same expected version is no longer accepted for that stream |
| `EventStore.Staged` | Inforigami.Regalo.EventStore.Tests.Unit/PersistenceTests.cs:161-166 | a save adds its events after those already staged for the id, touches no other entry, and an empty batch leaves the buffer unchanged |
| `EventLog.Accepts` | Inforigami.Regalo.EventStore.Tests.Unit/PersistenceTests.cs:79-80 | design decision: `NoStream` passes exactly for an absent stream, `At(v)` exactly when `v` is the stream's last ordinal, and `Max` never |
| `EventStore.Appended` | Inforigami.Regalo.EventStore.Tests.Unit/PersistenceTests.cs:80 | the log after a successful flush holds every committed or staged stream, and each stream's committed events are followed by exactly its staged events (none for an unstaged stream) |
| `EventStore.Conflicting` | Inforigami.Regalo.EventStore.Tests.Unit/PersistenceTests.cs:79-80 | design decision: the conflicting streams are staged streams, and there are none exactly when every staged stream passes its check |
| `EventLog.VersionToExpect` | Inforigami.Regalo.EventStore.Tests.Unit/PersistenceTests.cs:79 | design decision: the version a writer reads back (`NoStream` for an absent stream, else the last ordinal) always passes the check and is never `Max` |
| `EventStore.AppendedExtends` | Inforigami.Regalo.EventStore.Tests.Unit/PersistenceTests.cs:181-182 | a successful flush keeps every committed event at its ordinal, puts each staged batch after its stream's events, and leaves unstaged streams alone |
| `EventStore.FlushEmptyIsNoOp` | Inforigami.Regalo.EventStore.Tests.Unit/PersistenceTests.cs:80 | flushing with nothing staged passes and leaves the log unchanged |
| `EventStore.SecondWriterConflicts` | Inforigami.Regalo.EventStore.Tests.Unit/PersistenceTests.cs:79-80 | design decision (the lines show only the `NoStream` save and flush): of two flushes from one state that stage the same stream at the same expected version, once one commits the other fails its check |
| `EventStore.FreshSaveThenFlush` | Inforigami.Regalo.EventStore.Tests.Unit/PersistenceTests.cs:77-88 | saving a non-empty batch to a new stream with `NoStream` passes the check, and the flush commits exactly that batch |
| `EventStore.Store.constructor` | Inforigami.Regalo.EventStore.Tests.Unit/PersistenceTests.cs:61 | a new store has nothing staged and sees exactly the streams the backend already holds |
| `EventStore.Store.Save` | Inforigami.Regalo.EventStore.Tests.Unit/PersistenceTests.cs:144-150 | save changes only the buffer, as `Staged` says, and leaves the committed log unchanged |
| `EventStore.Store.Flush` | Inforigami.Regalo.EventStore.Tests.Unit/PersistenceTests.cs:79-81 | flush passes exactly when every staged stream passes its check; then the log becomes `Appended` and the buffer is cleared; otherwise the error names exactly the conflicting streams, nothing is committed, and exactly their entries leave the buffer |
| `EventStore.Store.Load` | Inforigami.Regalo.EventStore.Tests.Unit/PersistenceTests.cs:58-67 | load fails out-of-range exactly for `NoStream` or an ordinal past the last committed one, gives no result exactly for an absent stream otherwise, fails with no other error, and else returns the committed prefix up to the bound |
| `EventStore.LoadAtLastIsLoadMax` | Inforigami.Regalo.EventStore.Tests.Unit/PersistenceTests.cs:197-207 | loading up to the last ordinal equals loading with `Max`, and the default load returns all committed events |
| `EventStore.LoadBoundsNest` | Inforigami.Regalo.EventStore.Tests.Unit/PersistenceTests.cs:170-188 | a load bounded at `k` returns `k + 1` events, and a smaller bound returns a prefix of a larger bound's events |
| `History.Apply` | Inforigami.Regalo.EventStore.Tests.Unit/PersistenceTests.cs:79-81 | one save or flush keeps the store's invariants: committed streams are non-empty and staged entries hold events |
| `History.Run` | Inforigami.Regalo.EventStore.Tests.Unit/PersistenceTests.cs:79-81 | any sequence of saves and flushes keeps the store's invariants |
| `History.Replay` | Inforigami.Regalo.EventStore.Tests.Unit/PersistenceTests.cs:79-81 | performing saves and flushes on a store leaves it in the state `Run` gives for its old state, so the `History` lemmas hold of the class |
| `History.RunExtends` | Inforigami.Regalo.EventStore.Tests.Unit/PersistenceTests.cs:181-185 | over any sequence of calls the committed log is append-only: no stream disappears and no event changes or moves |
| `History.CommittedPrefixIsStable` | Inforigami.Regalo.EventStore.Tests.Unit/PersistenceTests.cs:185-188 | committed events up to ordinal `k` read back the same after any later calls |
| `History.SavesAreInvisible` | Inforigami.Regalo.EventStore.Tests.Unit/PersistenceTests.cs:144-150 | any number of saves without a flush leave the committed log unchanged |
| `History.SavesAccumulate` | Inforigami.Regalo.EventStore.Tests.Unit/PersistenceTests.cs:178-181 | several saves to one stream stage all their events in call order, keep the first expected version and touch no other entry |
| `History.SavesThenFlushCommitInOrder` | Inforigami.Regalo.EventStore.Tests.Unit/PersistenceTests.cs:178-182 | saves of several batches to a new stream with `NoStream`, then a flush, commit the batches' events in call order |
| `History.FlushRecoversFromConflict` | Inforigami.Regalo.EventStore.Tests.Unit/PersistenceTests.cs:80 | design decision: after a failed flush every remaining entry passes its check, a second flush empties the buffer, and a third changes nothing |
| `History.RetryAfterConflictCommits` | Inforigami.Regalo.EventStore.Tests.Unit/PersistenceTests.cs:79-80 | design decision: after a conflict on a stream, saving again at the version read back and flushing appends the new events after the committed ones |
| `History.SaveAtCurrentVersionCommits` | Inforigami.Regalo.EventStore.Tests.Unit/PersistenceTests.cs:79-80 | design decision: a save at the stream's current ordinal passes the check, and the flush appends its events |
| `History.SignUpThenSubscribe` | Inforigami.Regalo.EventStore.Tests.Unit/PersistenceTests.cs:178-185 | design decision: a one-event `NoStream` flush, then a two-event flush expecting version 0, leave the three events in order, and the prefix up to ordinal 1 is the first two |
| `PersistenceTests.LoadingGivenEmptyStoreShouldReturnNull` | Inforigami.Regalo.EventStore.Tests.Unit/PersistenceTests.cs:58-67 | loading any id from a new store gives no result |
| `PersistenceTests.SavingGivenSingleEventShouldAllowReloading` | Inforigami.Regalo.EventStore.Tests.Unit/PersistenceTests.cs:71-89 | one event saved with `NoStream` and flushed reloads as exactly that event |
| `PersistenceTests.SavingGivenEventWithGuidPropertyShouldAllowReloading` | Inforigami.Regalo.EventStore.Tests.Unit/PersistenceTests.cs:92-117 | the last reloaded event equals the last saved event |
| `PersistenceTests.SavingGivenEventsShouldAllowReloading` | Inforigami.Regalo.EventStore.Tests.Unit/PersistenceTests.cs:120-135 | saved and flushed events reload as exactly those events in order, with version count minus one; an empty batch reloads as no result |
| `PersistenceTests.SavingButNotCommittingGivenEventsDoesNotAllowReloading` | Inforigami.Regalo.EventStore.Tests.Unit/PersistenceTests.cs:138-151 | saved but unflushed events give no result on load |
| `PersistenceTests.SavingGivenNoEventsShouldDoNothing` | Inforigami.Regalo.EventStore.Tests.Unit/PersistenceTests.cs:155-167 | saving no events leaves the store so that load gives no result |
| `PersistenceTests.LoadingSpecificVersionReturnsOnlyRequestedEvents` | Inforigami.Regalo.EventStore.Tests.Unit/PersistenceTests.cs:169-189 | on a flushed three-event stream, loading up to ordinal 0, 1 or 2 returns the first one, two or three events |
| `PersistenceTests.LoadingMaxVersionReturnsAllEvents` | Inforigami.Regalo.EventStore.Tests.Unit/PersistenceTests.cs:191-208 | loading a flushed three-event stream with `Max` returns all three events |
| `PersistenceTests.LoadingVersionThatNoEventHasShouldFail` | Inforigami.Regalo.EventStore.Tests.Unit/PersistenceTests.cs:210-227 | loading up to ordinal 10 of a three-event stream fails out-of-range |
| `PersistenceTests.LoadingSpecialNoStreamVersionShouldFail` | Inforigami.Regalo.EventStore.Tests.Unit/PersistenceTests.cs:229-245 | loading with `NoStream` fails out-of-range even though the stream was never flushed |

## Left out

- The TCP connection to the EventStore server and its open and close (PersistenceTests.cs:27-28, 51-52): network I/O. The store works on in-memory maps instead.
- `Resolver.Configure`, `Resolver.Reset` and `Conventions.SetFindAggregateTypeForEventType` (PersistenceTests.cs:30-41, 47-49): process-wide configuration, not store logic.
- The logger passed to the store: logging only.
- SqlServer `ConnectionTests.cs`: connection-string and provider lookup, which is configuration and database I/O.
- `CommandHandlerA.cs`: a test double for a command dispatcher that is not part of this model.
- Domain aggregates (`Customer`, `AccountManager`, `GetUncommittedEvents`), the aggregate type argument of `Load<Customer>`, and event serialisation, such as the Guid and DateTime round trip at PersistenceTests.cs:92-117: events are opaque values compared by equality.
- Fresh ids from `Guid.NewGuid()`: the scenarios take the id as a parameter and require that the backend does not hold it yet. The backend itself is a parameter, the committed streams it already holds.
- The integer encoding of `NoStream` and `Max` as C# `int` constants: their values are not defined in `PersistenceTests.cs`, so `Version` is a datatype.
- Concurrent writers and backend atomicity: two competing writers are modelled only as two flushes from the same committed state (`SecondWriterConflicts`).
- Backend unavailability and timeouts: a failure of the transport has no counterpart in an in-memory model.
