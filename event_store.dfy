/** The persistence engine: `Save` stages events in an in-memory buffer keyed by stream id,
    `Flush` commits the buffer to the log after the optimistic-concurrency check, and `Load`
    reads committed events only, up to an inclusive version bound. */
module EventStore {
  import opened Wrappers
  import opened EventLog

  /** One staged write: the expected version given to the first `Save` of the stream since
      the last flush, and the events of every such `Save`, in call order. */
  datatype Pending<E> = Pending(expected: Version, events: seq<E>)

  type Buffer<E> = map<string, Pending<E>>

  /** `Save` with no events creates no entry, so every entry holds events. */
  ghost predicate NoEmptyEntries<E>(buffer: Buffer<E>)
  {
    forall id :: id in buffer ==> buffer[id].events != []
  }

  /** The store's invariant: every committed stream and every staged entry holds events. */
  ghost predicate Consistent<E>(log: Log<E>, buffer: Buffer<E>)
  {
    WellFormed(log) && NoEmptyEntries(buffer)
  }

  /** The events staged for `id`; none when nothing is staged. */
  function Buffered<E>(buffer: Buffer<E>, id: string): seq<E>
  {
    if id in buffer then buffer[id].events else []
  }

  /** The buffer after `Save(id, expected, events)`. */
  function Staged<E>(buffer: Buffer<E>, id: string, expected: Version, events: seq<E>): (b: Buffer<E>)
    ensures events == [] ==> b == buffer
    ensures NoEmptyEntries(buffer) ==> NoEmptyEntries(b)
    ensures b.Keys == if events == [] then buffer.Keys else buffer.Keys + {id}
    ensures forall k :: k in buffer && k != id ==> b[k] == buffer[k]
    ensures Buffered(b, id) == Buffered(buffer, id) + events
    ensures id in buffer ==> b[id].expected == buffer[id].expected
    ensures id !in buffer && events != [] ==> b[id].expected == expected
  {
    if events == [] then buffer
    else if id in buffer then buffer[id := Pending(buffer[id].expected, buffer[id].events + events)]
    else buffer[id := Pending(expected, events)]
  }

  /** Every staged stream passes its concurrency check against the committed log. */
  predicate AllAccepted<E>(log: Log<E>, buffer: Buffer<E>)
    requires WellFormed(log)
  {
    forall id :: id in buffer ==> Accepts(log, id, buffer[id].expected)
  }

  /** The staged streams whose expected version does not match the committed log. */
  function Conflicting<E>(log: Log<E>, buffer: Buffer<E>): (ids: set<string>)
    requires WellFormed(log)
    ensures ids <= buffer.Keys
    ensures ids == {} <==> AllAccepted(log, buffer)
  {
    var ids := set id | id in buffer.Keys && !Accepts(log, id, buffer[id].expected);
    assert forall id :: id in buffer && !Accepts(log, id, buffer[id].expected) ==> id in ids;
    ids
  }

  /** The committed log after a successful flush of `buffer`: each staged stream gets its
      staged events appended, in order; every other stream is untouched. */
  function Appended<E>(log: Log<E>, buffer: Buffer<E>): (log': Log<E>)
    ensures log'.Keys == log.Keys + buffer.Keys
    ensures forall id :: id in log' ==>
              |Stored(log, id)| <= |log'[id]| && log'[id][..|Stored(log, id)|] == Stored(log, id) && log'[id][|Stored(log, id)|..] == Buffered(buffer, id)
  {
    map id | id in log.Keys + buffer.Keys :: Stored(log, id) + Buffered(buffer, id)
  }

  /** What a successful flush does to the log: it extends it, keeps it well formed, gives
      each staged stream its staged events after the ones it had, and leaves every other
      stream as it was. */
  lemma AppendedExtends<E>(log: Log<E>, buffer: Buffer<E>)
    requires WellFormed(log) && NoEmptyEntries(buffer)
    ensures WellFormed(Appended(log, buffer))
    ensures Extends(log, Appended(log, buffer))
    ensures Appended(log, buffer).Keys == log.Keys + buffer.Keys
    ensures forall id :: id in buffer ==> Appended(log, buffer)[id][|Stored(log, id)|..] == buffer[id].events
    ensures forall id :: id in log && id !in buffer ==> Appended(log, buffer)[id] == log[id]
  {
  }

  /** Flushing an empty buffer changes nothing. */
  lemma FlushEmptyIsNoOp<E>(log: Log<E>)
    requires WellFormed(log)
    ensures AllAccepted(log, map[])
    ensures Appended(log, map[]) == log
  {
    var log' := Appended(log, map[]);
    assert forall id :: id in log' ==> log'[id] == log[id];
  }

  /** Of two flushes from the same committed state that both stage `id` with the same
      expected version, at most one is accepted: once either is committed, the other fails
      its concurrency check on `id`. */
  lemma SecondWriterConflicts<E>(log: Log<E>, first: Buffer<E>, second: Buffer<E>, id: string)
    requires WellFormed(log) && NoEmptyEntries(first)
    requires id in first && id in second && first[id].expected == second[id].expected
    requires AllAccepted(log, first)
    ensures !AllAccepted(Appended(log, first), second)
  {
  }

  /** Saving a non-empty batch to a stream that does not exist, with `NoStream`, and then
      flushing commits exactly that batch, in the order given. */
  lemma FreshSaveThenFlush<E>(log: Log<E>, id: string, events: seq<E>)
    requires WellFormed(log) && id !in log && events != []
    ensures AllAccepted(log, Staged(map[], id, NoStream, events))
    ensures Appended(log, Staged(map[], id, NoStream, events))[id] == events
  {
  }

  /** Partway through a flush of `buffer` onto `log0`: the streams in `done` have had their
      staged events appended, the others are as they were. */
  ghost predicate PartlyFlushed<E>(log0: Log<E>, buffer: Buffer<E>, done: set<string>, log: Log<E>)
  {
    && done <= buffer.Keys
    && WellFormed(log)
    && log.Keys == log0.Keys + done
    && forall id :: id in log ==> log[id] == Stored(log0, id) + (if id in done then Buffered(buffer, id) else [])
  }

  /** One step of a flush: a stream not yet appended still reads as in `log0`, and appending
      its staged events advances the partial flush by that stream. */
  lemma FlushStep<E>(log0: Log<E>, buffer: Buffer<E>, done: set<string>, log: Log<E>, id: string)
    requires WellFormed(log0) && NoEmptyEntries(buffer)
    requires PartlyFlushed(log0, buffer, done, log)
    requires id in buffer && id !in done
    ensures Stored(log, id) == Stored(log0, id)
    ensures PartlyFlushed(log0, buffer, done + {id}, Append(log, id, buffer[id].events))
  {
  }

  /** A partial flush that has covered every staged stream is the whole flush. */
  lemma FlushDone<E>(log0: Log<E>, buffer: Buffer<E>, log: Log<E>)
    requires PartlyFlushed(log0, buffer, buffer.Keys, log)
    ensures log == Appended(log0, buffer)
  {
  }

  /** The event store object: a staging buffer and a committed log, both updated in place. */
  class Store<E> {
    var buffer: Buffer<E>
    var committed: Log<E>

    ghost predicate Valid()
      reads this
    {
      Consistent(committed, buffer)
    }

    /** A store over a backend that already holds the committed streams `backend`, with
        nothing staged. */
    constructor (backend: Log<E>)
      requires WellFormed(backend)
      ensures Valid()
      ensures buffer == map[] && committed == backend
    {
      buffer := map[];
      committed := backend;
    }

    /** Stages `events` for `id` against the expected version `expected`; performs no check
        and leaves the committed log alone. An empty batch stages nothing. */
    method Save(id: string, expected: Version, events: seq<E>)
      requires Valid()
      modifies this
      ensures Valid()
      ensures buffer == Staged(old(buffer), id, expected, events)
      ensures committed == old(committed)
    {
      buffer := Staged(buffer, id, expected, events);
    }

    /** Commits every staged stream, all or nothing. When every staged stream passes its
        concurrency check the log becomes `Appended(committed, buffer)` and the buffer is
        cleared. Otherwise nothing is committed, every conflicting stream is reported, the
        entries of the conflicting streams are discarded (they were written against a stale
        version, so the caller reloads and saves again), and the entries of the streams that
        passed stay staged for the next flush. */
    method Flush() returns (r: Outcome<StoreError>)
      requires Valid()
      modifies this
      ensures Valid()
      ensures r.Pass? <==> AllAccepted(old(committed), old(buffer))
      ensures r.Pass? ==> committed == Appended(old(committed), old(buffer)) && buffer == map[]
      ensures r.Fail? ==> committed == old(committed)
                          && buffer == old(buffer) - Conflicting(old(committed), old(buffer))
      ensures r.Fail? ==> r.error == ConcurrencyConflict(Conflicting(old(committed), old(buffer)))
    {
      var rejected := Conflicting(committed, buffer);
      if rejected != {} {
        buffer := buffer - rejected;
        r := Fail(ConcurrencyConflict(rejected));
        return;
      }
      var pending := buffer.Keys;
      var log := committed;
      ghost var done: set<string> := {};
      while pending != {}
        invariant buffer == old(buffer) && committed == old(committed)
        invariant pending <= buffer.Keys && done == buffer.Keys - pending
        invariant PartlyFlushed(committed, buffer, done, log)
        decreases pending
      {
        var id :| id in pending;
        FlushStep(committed, buffer, done, log, id);
        log := Append(log, id, buffer[id].events);
        pending := pending - {id};
        done := done + {id};
      }
      FlushDone(committed, buffer, log);
      committed := log;
      buffer := map[];
      r := Pass;
    }

    /** Reads committed events of `id` with ordinal up to `bound`. The staging buffer is never
        consulted. `NoStream` is rejected before the stream's existence is looked at; an
        absent stream gives no result; a bound past the last committed ordinal is rejected. */
    function Load(id: string, bound: Version := Max): (r: Result<Option<EventStream<E>>, StoreError>)
      reads this
      requires Valid()
      ensures r == Failure(VersionOutOfRange) <==>
                bound == NoStream || (id in committed && bound.At? && bound.ordinal >= |committed[id]|)
      ensures r == Success(None) <==> bound != NoStream && id !in committed
      ensures r.Failure? ==> r.error == VersionOutOfRange
      ensures r.Success? && r.value.Some? ==>
                id in committed && r.value.value.id == id
                && r.value.value.version == (if bound.At? then bound.ordinal else |committed[id]| - 1)
                && r.value.value.events == committed[id][..r.value.value.version + 1]
    {
      if bound.NoStream? then Failure(VersionOutOfRange)
      else match CurrentVersion(committed, id)
        case None => Success(None)
        case Some(last) =>
          var upTo := if bound.At? then bound.ordinal else last;
          if upTo > last then Failure(VersionOutOfRange)
          else Success(Some(EventStream(id, committed[id][..upTo + 1], upTo)))
    }
  }

  /** Loading up to the last committed ordinal is the same as loading with `Max`, and both
      return every committed event. */
  lemma LoadAtLastIsLoadMax<E>(store: Store<E>, id: string)
    requires store.Valid() && id in store.committed
    ensures store.Load(id, At(|store.committed[id]| - 1)) == store.Load(id, Max)
    ensures store.Load(id) == Success(Some(EventStream(id, store.committed[id], |store.committed[id]| - 1)))
  {
    var s := store.committed[id];
    assert s[..|s|] == s;
  }

  /** A bounded load returns exactly the first `k + 1` committed events, and a smaller bound
      returns a prefix of what a larger one returns. */
  lemma LoadBoundsNest<E>(store: Store<E>, id: string, j: nat, k: nat)
    requires store.Valid() && id in store.committed
    requires j <= k < |store.committed[id]|
    ensures store.Load(id, At(k)).Success? && store.Load(id, At(k)).value.Some?
    ensures |store.Load(id, At(k)).value.value.events| == k + 1
    ensures IsPrefix(store.Load(id, At(j)).value.value.events, store.Load(id, At(k)).value.value.events)
  {
  }
}
