/** Sequences of calls on one store, as values: what the committed log and the buffer look
    like after any mix of `Save` and `Flush`. `Replay` performs such calls on a `Store` and
    is proved to end in `Run` of its old state, so the lemmas here hold of the class. */
module History {
  import opened EventLog
  import opened EventStore

  datatype Op<E> = Save(id: string, expected: Version, events: seq<E>) | Flush

  datatype State<E> = State(buffer: Buffer<E>, committed: Log<E>)

  ghost predicate Valid<E>(st: State<E>)
  {
    Consistent(st.committed, st.buffer)
  }

  /** The state after one call, as `Store.Save` and `Store.Flush` state it. A flush that
      fails its concurrency check commits nothing and discards the conflicting entries. */
  function Apply<E>(st: State<E>, op: Op<E>): (st': State<E>)
    requires Valid(st)
    ensures Valid(st')
  {
    match op
    case Save(id, expected, events) => State(Staged(st.buffer, id, expected, events), st.committed)
    case Flush =>
      if AllAccepted(st.committed, st.buffer) then
        AppendedExtends(st.committed, st.buffer);
        State(map[], Appended(st.committed, st.buffer))
      else State(st.buffer - Conflicting(st.committed, st.buffer), st.committed)
  }

  /** The state after the calls `ops`, in order. */
  function Run<E>(st: State<E>, ops: seq<Op<E>>): (st': State<E>)
    requires Valid(st)
    ensures Valid(st')
    decreases |ops|
  {
    if ops == [] then st else Run(Apply(st, ops[0]), ops[1..])
  }

  /** One `Save` per batch, all for the same stream and expected version. */
  function SavesOf<E>(id: string, expected: Version, batches: seq<seq<E>>): (ops: seq<Op<E>>)
    ensures |ops| == |batches|
    ensures forall i :: 0 <= i < |batches| ==> ops[i] == Save(id, expected, batches[i])
  {
    if batches == [] then [] else [Save(id, expected, batches[0])] + SavesOf(id, expected, batches[1..])
  }

  function Flatten<E>(batches: seq<seq<E>>): seq<E>
  {
    if batches == [] then [] else batches[0] + Flatten(batches[1..])
  }

  lemma ExtendsReflexive<E>(log: Log<E>)
    ensures Extends(log, log)
  {
  }

  lemma ApplyExtends<E>(st: State<E>, op: Op<E>)
    requires Valid(st)
    ensures Extends(st.committed, Apply(st, op).committed)
  {
  }

  /** The committed log is append-only over any sequence of calls: no stream disappears,
      and no committed event changes or moves. */
  lemma {:induction false} RunExtends<E>(st: State<E>, ops: seq<Op<E>>)
    requires Valid(st)
    ensures Extends(st.committed, Run(st, ops).committed)
    decreases |ops|
  {
    if ops == [] {
      ExtendsReflexive(st.committed);
    } else {
      var next := Apply(st, ops[0]);
      ApplyExtends(st, ops[0]);
      RunExtends(next, ops[1..]);
      ExtendsTransitive(st.committed, next.committed, Run(next, ops[1..]).committed);
    }
  }

  /** Once events up to ordinal `k` are committed, they read back the same after any later
      calls: a bounded load that succeeded keeps returning the same events. */
  lemma CommittedPrefixIsStable<E>(st: State<E>, ops: seq<Op<E>>, id: string, k: nat)
    requires Valid(st) && id in st.committed && k < |st.committed[id]|
    ensures id in Run(st, ops).committed
    ensures k < |Run(st, ops).committed[id]|
    ensures Run(st, ops).committed[id][..k + 1] == st.committed[id][..k + 1]
  {
    RunExtends(st, ops);
    var s, s' := st.committed[id], Run(st, ops).committed[id];
    assert s'[..|s|][..k + 1] == s'[..k + 1];
  }

  /** Calls to `Save` alone never change what is committed, so they are invisible to `Load`. */
  lemma {:induction false} SavesAreInvisible<E>(st: State<E>, ops: seq<Op<E>>)
    requires Valid(st)
    requires forall i :: 0 <= i < |ops| ==> ops[i].Save?
    ensures Run(st, ops).committed == st.committed
    decreases |ops|
  {
    if ops != [] {
      SavesAreInvisible(Apply(st, ops[0]), ops[1..]);
    }
  }

  /** Several saves to one stream before a flush stage their events in call order. */
  lemma {:induction false} SavesAccumulate<E>(st: State<E>, id: string, expected: Version, batches: seq<seq<E>>)
    requires Valid(st)
    ensures Buffered(Run(st, SavesOf(id, expected, batches)).buffer, id) == Buffered(st.buffer, id) + Flatten(batches)
    ensures Run(st, SavesOf(id, expected, batches)).committed == st.committed
    ensures Run(st, SavesOf(id, expected, batches)).buffer.Keys
         == if Flatten(batches) == [] then st.buffer.Keys else st.buffer.Keys + {id}
    ensures forall k :: k in st.buffer && k != id ==> Run(st, SavesOf(id, expected, batches)).buffer[k] == st.buffer[k]
    ensures id in st.buffer ==> Run(st, SavesOf(id, expected, batches)).buffer[id].expected == st.buffer[id].expected
    ensures id !in st.buffer && Flatten(batches) != [] ==> Run(st, SavesOf(id, expected, batches)).buffer[id].expected == expected
    decreases |batches|
  {
    var ops := SavesOf(id, expected, batches);
    if batches != [] {
      var next := Apply(st, ops[0]);
      assert ops[1..] == SavesOf(id, expected, batches[1..]);
      SavesAccumulate(next, id, expected, batches[1..]);
      assert Buffered(st.buffer, id) + batches[0] + Flatten(batches[1..])
          == Buffered(st.buffer, id) + Flatten(batches);
    }
  }

  /** A store never stays stuck on a conflict: after a failed flush every remaining entry
      passes its check, so a second flush commits it, and a third changes nothing. */
  lemma FlushRecoversFromConflict<E>(st: State<E>)
    requires Valid(st)
    ensures AllAccepted(Apply(st, Flush).committed, Apply(st, Flush).buffer)
    ensures Apply(Apply(st, Flush), Flush).buffer == map[]
    ensures Apply(Apply(Apply(st, Flush), Flush), Flush) == Apply(Apply(st, Flush), Flush)
  {
    var once := Apply(st, Flush);
    if !AllAccepted(st.committed, st.buffer) {
      var kept := once.buffer;
      forall id | id in kept ensures Accepts(once.committed, id, kept[id].expected) {
        assert id !in Conflicting(st.committed, st.buffer);
      }
    }
    var twice := Apply(once, Flush);
    FlushEmptyIsNoOp(twice.committed);
  }

  /** After a conflict on `id`, the caller reloads, saves again at the version it read and
      flushes: the retry commits its events after the stream's committed ones. */
  lemma RetryAfterConflictCommits<E>(st: State<E>, id: string, events: seq<E>)
    requires Valid(st)
    requires id in Conflicting(st.committed, st.buffer) && events != []
    ensures var failed := Apply(st, Flush);
            var retried := Run(failed, [Save(id, VersionToExpect(failed.committed, id), events), Flush]);
            retried.buffer == map[] && Stored(retried.committed, id) == Stored(st.committed, id) + events
  {
    var failed := Apply(st, Flush);
    FlushRecoversFromConflict(st);
    assert failed.committed == st.committed && id !in failed.buffer;
    var ops := [Save(id, VersionToExpect(failed.committed, id), events), Flush];
    var saved := Apply(failed, ops[0]);
    assert AllAccepted(saved.committed, saved.buffer);
    assert Run(failed, ops) == Run(saved, ops[1..]);
    assert ops[1..][1..] == [];
    assert Run(saved, ops[1..]) == Run(Apply(saved, Flush), []);
  }

  /** A save at the stream's current version, then a flush, appends the events. */
  lemma SaveAtCurrentVersionCommits<E>(log: Log<E>, id: string, events: seq<E>)
    requires WellFormed(log) && id in log && events != []
    ensures AllAccepted(log, Staged(map[], id, At(|log[id]| - 1), events))
    ensures Appended(log, Staged(map[], id, At(|log[id]| - 1), events))[id] == log[id] + events
  {
  }

  /** A customer signs up (one event, `NoStream`), then subscribes twice (two events,
      expected version 0); the stream then holds the three events, and the committed prefix up
      to ordinal 1 is the sign-up and the first subscription. */
  lemma SignUpThenSubscribe<E>(log: Log<E>, id: string, signedUp: E, subscribedA: E, subscribedB: E)
    requires WellFormed(log) && id !in log
    ensures var ops := [Save(id, NoStream, [signedUp]), Flush, Save(id, At(0), [subscribedA, subscribedB]), Flush];
            var st := Run(State(map[], log), ops);
            id in st.committed && st.committed[id] == [signedUp, subscribedA, subscribedB]
            && st.committed[id][..2] == [signedUp, subscribedA]
  {
    var st0 := State(map[], log);
    var ops := [Save(id, NoStream, [signedUp]), Flush, Save(id, At(0), [subscribedA, subscribedB]), Flush];
    var st1 := Apply(st0, ops[0]);
    var st2 := Apply(st1, ops[1]);
    assert st2.committed[id] == [signedUp];
    var st3 := Apply(st2, ops[2]);
    var st4 := Apply(st3, ops[3]);
    assert st4.committed[id] == [signedUp] + [subscribedA, subscribedB];
    assert Run(st0, ops) == Run(st1, ops[1..]);
    assert Run(st1, ops[1..]) == Run(st2, ops[2..]) by { assert ops[1..][1..] == ops[2..]; }
    assert Run(st2, ops[2..]) == Run(st3, ops[3..]) by { assert ops[2..][1..] == ops[3..]; }
    assert Run(st3, ops[3..]) == Run(st4, []) by { assert ops[3..][1..] == []; }
  }

  /** Performs the calls `ops` on `store`, in order. Its new state is `Run` of the old one,
      so every lemma about `Run` holds of a real store. */
  method Replay<E>(store: Store<E>, ops: seq<Op<E>>)
    requires store.Valid()
    modifies store
    ensures store.Valid()
    ensures State(store.buffer, store.committed) == Run(State(old(store.buffer), old(store.committed)), ops)
  {
    ghost var st0 := State(store.buffer, store.committed);
    var i := 0;
    while i < |ops|
      invariant 0 <= i <= |ops|
      invariant store.Valid()
      invariant Run(st0, ops) == Run(State(store.buffer, store.committed), ops[i..])
    {
      ghost var before := State(store.buffer, store.committed);
      assert ops[i..][1..] == ops[i + 1..];
      match ops[i] {
        case Save(id, expected, events) =>
          store.Save(id, expected, events);
        case Flush =>
          var _ := store.Flush();
      }
      assert State(store.buffer, store.committed) == Apply(before, ops[i]);
      i := i + 1;
    }
    assert ops[i..] == [];
  }

  lemma {:induction false} RunConcat<E>(st: State<E>, a: seq<Op<E>>, b: seq<Op<E>>)
    requires Valid(st)
    ensures Run(st, a + b) == Run(Run(st, a), b)
    decreases |a|
  {
    if a == [] {
      assert a + b == b;
    } else {
      assert (a + b)[1..] == a[1..] + b;
      RunConcat(Apply(st, a[0]), a[1..], b);
    }
  }

  /** Saving several batches to a new stream with `NoStream` and then flushing commits all
      their events, batch after batch in call order. */
  lemma SavesThenFlushCommitInOrder<E>(log: Log<E>, id: string, batches: seq<seq<E>>)
    requires WellFormed(log) && id !in log && Flatten(batches) != []
    ensures id in Run(State(map[], log), SavesOf(id, NoStream, batches) + [Flush]).committed
    ensures Run(State(map[], log), SavesOf(id, NoStream, batches) + [Flush]).committed[id] == Flatten(batches)
  {
    var st := State(map[], log);
    var saves := SavesOf(id, NoStream, batches);
    SavesAccumulate(st, id, NoStream, batches);
    RunConcat(st, saves, [Flush]);
    var staged := Run(st, saves);
    assert staged.buffer.Keys == {id};
    assert AllAccepted(staged.committed, staged.buffer);
    assert Run(staged, [Flush]) == Apply(staged, Flush);
  }
}
