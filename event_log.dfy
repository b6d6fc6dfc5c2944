/** The committed side of the event store: per stream id, an ordered, append-only sequence
    of events. Event values are opaque; they are only moved and compared. */
module EventLog {
  import opened Wrappers

  /** EventStreamVersion: the expected version on a write and the inclusive upper bound on a read.
      `NoStream` asserts that the stream does not exist yet, `Max` means "every committed event",
      `At(n)` names the zero-based ordinal of an event. */
  datatype Version = NoStream | Max | At(ordinal: nat)

  /** The failures of the store: a read bound outside the committed history
      (ArgumentOutOfRangeException), and the streams whose expected version does not match
      at flush. */
  datatype StoreError = VersionOutOfRange | ConcurrencyConflict(streamIds: set<string>)

  /** What a load hands back: the stream id, its events in commit order, and the ordinal
      of the last event included. */
  datatype EventStream<E> = EventStream(id: string, events: seq<E>, version: nat)

  /** Committed events per stream id. */
  type Log<E> = map<string, seq<E>>

  /** A stream exists only once at least one event has been committed to it. */
  ghost predicate WellFormed<E>(log: Log<E>)
  {
    forall id :: id in log ==> log[id] != []
  }

  /** The events committed to `id`; none when the stream does not exist. */
  function Stored<E>(log: Log<E>, id: string): seq<E>
  {
    if id in log then log[id] else []
  }

  /** The ordinal of the last committed event of `id`, or `None` when the stream does not exist. */
  function CurrentVersion<E>(log: Log<E>, id: string): (v: Option<nat>)
    requires WellFormed(log)
    ensures v.None? <==> id !in log
    ensures v.Some? ==> v.value < |log[id]| && log[id][v.value + 1..] == []
  {
    if id in log then Some(|log[id]| - 1) else None
  }

  /** The optimistic-concurrency check of one write: `NoStream` demands that the stream be
      absent, an ordinal demands that it be exactly the current version, and `Max`, a
      read-only bound, is never accepted. */
  predicate Accepts<E>(log: Log<E>, id: string, expected: Version)
    requires WellFormed(log)
    ensures expected.NoStream? ==> (Accepts(log, id, expected) <==> id !in log)
    ensures expected.At? ==> (Accepts(log, id, expected) <==> id in log && |log[id]| == expected.ordinal + 1)
    ensures expected.Max? ==> !Accepts(log, id, expected)
  {
    match expected
    case NoStream => id !in log
    case Max => false
    case At(v) => CurrentVersion(log, id) == Some(v)
  }

  /** The expected version a writer states after reading the stream: its current version,
      or `NoStream` when it does not exist. The check always accepts it. */
  function VersionToExpect<E>(log: Log<E>, id: string): (v: Version)
    requires WellFormed(log)
    ensures Accepts(log, id, v)
    ensures v != Max
  {
    match CurrentVersion(log, id)
    case None => NoStream
    case Some(last) => At(last)
  }

  /** Appends `events` to stream `id`, creating the stream when it is absent; appending
      nothing changes nothing. */
  function Append<E>(log: Log<E>, id: string, events: seq<E>): (log': Log<E>)
    ensures WellFormed(log) ==> WellFormed(log')
    ensures log'.Keys == if events == [] then log.Keys else log.Keys + {id}
    ensures forall k :: k in log && k != id ==> log'[k] == log[k]
    ensures Stored(log', id) == Stored(log, id) + events
  {
    if events == [] then log else log[id := Stored(log, id) + events]
  }

  /** `s` extends `t`: every committed event keeps its ordinal. */
  ghost predicate IsPrefix<E>(t: seq<E>, s: seq<E>)
  {
    |t| <= |s| && s[..|t|] == t
  }

  /** The committed history only grows: every stream of `log` is still in `log'`, and its
      events are a prefix of what `log'` holds for it. */
  ghost predicate Extends<E>(log: Log<E>, log': Log<E>)
  {
    forall id :: id in log ==> id in log' && IsPrefix(log[id], log'[id])
  }

  /** Appending extends the log, and a stream that was written to at an accepted expected
      version no longer accepts that same expected version. */
  lemma AppendExtends<E>(log: Log<E>, id: string, expected: Version, events: seq<E>)
    requires WellFormed(log)
    requires Accepts(log, id, expected) && events != []
    ensures Extends(log, Append(log, id, events))
    ensures !Accepts(Append(log, id, events), id, expected)
  {
  }

  lemma ExtendsTransitive<E>(a: Log<E>, b: Log<E>, c: Log<E>)
    requires Extends(a, b) && Extends(b, c)
    ensures Extends(a, c)
  {
  }
}
