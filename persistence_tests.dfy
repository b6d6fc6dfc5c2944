/** The scenarios of the persistence test fixture, one method per test, each on a fresh
    store over a backend that may already hold other streams but not the test's stream id
    (the tests use a new Guid as id). Event values are arbitrary parameters, so each scenario
    holds for every backend, stream id and events. */
module PersistenceTests {
  import opened Wrappers
  import opened EventLog
  import opened EventStore

  /** Loading from an empty store gives no result. */
  method LoadingGivenEmptyStoreShouldReturnNull<E>(backend: Log<E>, id: string) returns (r: Result<Option<EventStream<E>>, StoreError>)
    requires WellFormed(backend) && id !in backend
    ensures r == Success(None)
  {
    var store := new Store<E>(backend);
    r := store.Load(id);
  }

  /** One event saved with `NoStream` and flushed reloads as exactly that event. */
  method SavingGivenSingleEventShouldAllowReloading<E>(backend: Log<E>, id: string, evt: E) returns (r: Result<Option<EventStream<E>>, StoreError>)
    requires WellFormed(backend) && id !in backend
    ensures r.Success? && r.value.Some?
    ensures r.value.value.events == [evt]
  {
    var store := new Store<E>(backend);
    store.Save(id, NoStream, [evt]);
    var flushed := store.Flush();
    assert flushed.Pass?;
    r := store.Load(id);
  }

  /** The last event reloaded is the last one saved, unchanged. */
  method SavingGivenEventWithGuidPropertyShouldAllowReloading<E>(backend: Log<E>, id: string, events: seq<E>) returns (last: Option<E>)
    requires WellFormed(backend) && id !in backend
    requires events != []
    ensures last == Some(events[|events| - 1])
  {
    var store := new Store<E>(backend);
    store.Save(id, NoStream, events);
    var flushed := store.Flush();
    assert flushed.Pass?;
    var r := store.Load(id);
    var reloaded := r.value.value.events;
    last := if reloaded == [] then None else Some(reloaded[|reloaded| - 1]);
  }

  /** Events saved with `NoStream` and flushed reload as exactly those events, in order;
      an empty batch leaves no stream behind. */
  method SavingGivenEventsShouldAllowReloading<E>(backend: Log<E>, id: string, events: seq<E>) returns (r: Result<Option<EventStream<E>>, StoreError>)
    requires WellFormed(backend) && id !in backend
    ensures r == Success(if events == [] then None else Some(EventStream(id, events, |events| - 1)))
  {
    var store := new Store<E>(backend);
    store.Save(id, NoStream, events);
    var flushed := store.Flush();
    assert flushed.Pass?;
    r := store.Load(id);
    assert events != [] ==> events[..|events|] == events;
  }

  /** Saved but not flushed events are not visible to a load. */
  method SavingButNotCommittingGivenEventsDoesNotAllowReloading<E>(backend: Log<E>, id: string, events: seq<E>) returns (r: Result<Option<EventStream<E>>, StoreError>)
    requires WellFormed(backend) && id !in backend
    ensures r == Success(None)
  {
    var store := new Store<E>(backend);
    store.Save(id, NoStream, events);
    r := store.Load(id);
  }

  /** Saving no events does nothing: a later load gives no result. */
  method SavingGivenNoEventsShouldDoNothing<E>(backend: Log<E>, id: string) returns (r: Result<Option<EventStream<E>>, StoreError>)
    requires WellFormed(backend) && id !in backend
    ensures r == Success(None)
  {
    var store := new Store<E>(backend);
    store.Save(id, NoStream, []);
    r := store.Load(id);
  }

  /** On a flushed three-event stream, loading up to ordinal `version` returns the first
      `version + 1` events. */
  method LoadingSpecificVersionReturnsOnlyRequestedEvents<E>(backend: Log<E>, id: string, e0: E, e1: E, e2: E, version: nat)
    returns (r: Result<Option<EventStream<E>>, StoreError>)
    requires WellFormed(backend) && id !in backend
    requires version <= 2
    ensures r.Success? && r.value.Some?
    ensures r.value.value.events == [e0, e1, e2][..version + 1]
  {
    var store := new Store<E>(backend);
    store.Save(id, NoStream, [e0, e1, e2]);
    var flushed := store.Flush();
    assert flushed.Pass?;
    r := store.Load(id, At(version));
  }

  /** Loading with `Max` returns every committed event. */
  method LoadingMaxVersionReturnsAllEvents<E>(backend: Log<E>, id: string, e0: E, e1: E, e2: E) returns (r: Result<Option<EventStream<E>>, StoreError>)
    requires WellFormed(backend) && id !in backend
    ensures r.Success? && r.value.Some?
    ensures r.value.value.events == [e0, e1, e2]
  {
    var store := new Store<E>(backend);
    store.Save(id, NoStream, [e0, e1, e2]);
    var flushed := store.Flush();
    assert flushed.Pass?;
    r := store.Load(id, Max);
    assert [e0, e1, e2][..3] == [e0, e1, e2];
  }

  /** Loading up to ordinal 10 of a three-event stream is out of range. */
  method LoadingVersionThatNoEventHasShouldFail<E>(backend: Log<E>, id: string, e0: E, e1: E, e2: E) returns (r: Result<Option<EventStream<E>>, StoreError>)
    requires WellFormed(backend) && id !in backend
    ensures r == Failure(VersionOutOfRange)
  {
    var store := new Store<E>(backend);
    store.Save(id, NoStream, [e0, e1, e2]);
    var flushed := store.Flush();
    assert flushed.Pass?;
    r := store.Load(id, At(10));
  }

  /** `NoStream` is never a valid read bound, even for a stream that was saved but never
      flushed and so does not exist. */
  method LoadingSpecialNoStreamVersionShouldFail<E>(backend: Log<E>, id: string, e0: E, e1: E, e2: E) returns (r: Result<Option<EventStream<E>>, StoreError>)
    requires WellFormed(backend) && id !in backend
    ensures r == Failure(VersionOutOfRange)
  {
    var store := new Store<E>(backend);
    store.Save(id, NoStream, [e0, e1, e2]);
    r := store.Load(id, NoStream);
  }
}
