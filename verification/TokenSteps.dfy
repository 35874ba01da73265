/** Every step of the token protocol keeps its invariant. */
module TokenSteps {
  import opened Base
  import opened TokenIndex
  import opened TokenProtocol
  import Runs

  lemma InitialFine(s: State)
    requires Initial(s)
    ensures Inv(s)
  {
  }

  lemma OwnWorkerKept(s: State, e: Event)
    requires Inv(s) && Enabled(s, e) && !e.Tick? && !e.Restart?
    ensures e.a in Apply(s, e).workers ==> WorkerFine(Apply(s, e), e.a)
  {
    if e.a in s.workers { assert WorkerFine(s, e.a); }
    assert forall id :: id in s.rows ==> RowFine(s, id);
  }

  lemma OtherWorkerKept(s: State, e: Event, b: Actor)
    requires Inv(s) && Enabled(s, e) && !e.Restart? && b in s.workers && (e.Tick? || e.a != b)
    ensures b in Apply(s, e).workers && WorkerFine(Apply(s, e), b)
  {
    assert WorkerFine(s, b);
    if e.WriteRow? { assert WorkerFine(s, e.a); }
  }

  lemma LocksKept(s: State, e: Event)
    requires Inv(s) && Enabled(s, e)
    ensures LocksFine(Apply(s, e))
  {
  }

  /** Mutations are ordered by their mutex: nothing is pending but the mutation at work. */
  lemma PendingAfter(s: State, e: Event)
    requires Inv(s) && Enabled(s, e)
    ensures var t := Apply(s, e);
      if e.WriteRow? then Pending(s).None? && Pending(t) == Some(s.workers[e.a].kind)
      else if e.WriteIndex? && Mutates(s.workers[e.a].kind) then Pending(s) == Some(s.workers[e.a].kind) && Pending(t).None?
      else if e.Restart? then Pending(t).None?
      else Pending(t) == Pending(s)
    ensures e.WriteIndex? && s.workers[e.a].kind.Load? ==> Pending(s).None?
  {
    if e.WriteRow? || e.WriteIndex? { assert WorkerFine(s, e.a); }
    if s.mutations.Some? { assert WorkerFine(s, s.mutations.value); }
  }

  /** What lasts in whole seconds is neither purged nor left out by a load. */
  lemma NotPurgedEarly(now: Instant, clock: Instant)
    requires now <= clock
    ensures forall t: Instant :: Unix(t) > Unix(clock) ==> t > now
    ensures Unix(now) <= Unix(clock)
  {
    UnixMonotone(now, clock);
  }

  // ---------------------------------------------------------------- rows

  lemma RowsAfterRow(s: State, a: Actor)
    requires Inv(s) && Enabled(s, WriteRow(a))
    ensures forall id :: id in Apply(s, WriteRow(a)).rows ==> RowFine(Apply(s, WriteRow(a)), id)
  {
    var t := Apply(s, WriteRow(a));
    PendingAfter(s, WriteRow(a));
    assert WorkerFine(s, a);
    forall id | id in t.rows ensures RowFine(t, id) {
      if id in s.rows { assert RowFine(s, id); }
    }
  }

  lemma RowsAfterIndex(s: State, a: Actor)
    requires Inv(s) && Enabled(s, WriteIndex(a))
    ensures forall id :: id in Apply(s, WriteIndex(a)).rows ==> RowFine(Apply(s, WriteIndex(a)), id)
  {
    var t := Apply(s, WriteIndex(a));
    PendingAfter(s, WriteIndex(a));
    assert WorkerFine(s, a);
    if s.workers[a].kind.Cleanup? || s.workers[a].kind.Load? { NotPurgedEarly(s.workers[a].kind.now, s.clock); }
    forall id | id in t.rows ensures RowFine(t, id) {
      assert RowFine(s, id);
      if s.rows[id].hash in s.index { assert EntryFine(s, s.rows[id].hash); }
    }
  }

  lemma RowsStay(s: State, e: Event)
    requires Inv(s) && Enabled(s, e) && !e.Restart? && !e.WriteRow? && !e.WriteIndex?
    ensures forall id :: id in Apply(s, e).rows ==> RowFine(Apply(s, e), id)
  {
    PendingAfter(s, e);
    UnixMonotone(s.clock, Apply(s, e).clock);
    forall id | id in s.rows ensures RowFine(Apply(s, e), id) { assert RowFine(s, id); }
  }

  lemma RowsKept(s: State, e: Event)
    requires Inv(s) && Enabled(s, e) && !e.Restart?
    ensures forall id :: id in Apply(s, e).rows ==> RowFine(Apply(s, e), id)
  {
    if e.WriteRow? { RowsAfterRow(s, e.a); }
    else if e.WriteIndex? { RowsAfterIndex(s, e.a); }
    else { RowsStay(s, e); }
  }

  // ---------------------------------------------------------------- entries

  lemma EntriesAfterRow(s: State, a: Actor)
    requires Inv(s) && Enabled(s, WriteRow(a))
    ensures forall h :: h in Apply(s, WriteRow(a)).index ==> EntryFine(Apply(s, WriteRow(a)), h)
  {
    PendingAfter(s, WriteRow(a));
    assert WorkerFine(s, a);
    forall h | h in s.index ensures EntryFine(Apply(s, WriteRow(a)), h) { assert EntryFine(s, h); }
  }

  lemma EntriesAfterLoad(s: State, a: Actor)
    requires Inv(s) && Enabled(s, WriteIndex(a)) && s.workers[a].kind.Load?
    ensures forall h :: h in Apply(s, WriteIndex(a)).index ==> EntryFine(Apply(s, WriteIndex(a)), h)
  {
    var t := Apply(s, WriteIndex(a));
    PendingAfter(s, WriteIndex(a));
    assert WorkerFine(s, a);
    forall h | h in t.index ensures EntryFine(t, h) { assert RowFine(s, t.index[h].id); }
  }

  lemma EntriesAfterIndex(s: State, a: Actor)
    requires Inv(s) && Enabled(s, WriteIndex(a)) && !s.workers[a].kind.Load?
    ensures forall h :: h in Apply(s, WriteIndex(a)).index ==> EntryFine(Apply(s, WriteIndex(a)), h)
  {
    var t := Apply(s, WriteIndex(a));
    PendingAfter(s, WriteIndex(a));
    assert WorkerFine(s, a);
    forall h | h in t.index ensures EntryFine(t, h) {
      if h in s.index { assert EntryFine(s, h); }
    }
  }

  lemma EntriesStay(s: State, e: Event)
    requires Inv(s) && Enabled(s, e) && !e.Restart? && !e.WriteRow? && !e.WriteIndex?
    ensures forall h :: h in Apply(s, e).index ==> EntryFine(Apply(s, e), h)
  {
    PendingAfter(s, e);
    forall h | h in s.index ensures EntryFine(Apply(s, e), h) { assert EntryFine(s, h); }
  }

  lemma EntriesKept(s: State, e: Event)
    requires Inv(s) && Enabled(s, e) && !e.Restart?
    ensures forall h :: h in Apply(s, e).index ==> EntryFine(Apply(s, e), h)
  {
    if e.WriteRow? { EntriesAfterRow(s, e.a); }
    else if e.WriteIndex? {
      if s.workers[e.a].kind.Load? { EntriesAfterLoad(s, e.a); } else { EntriesAfterIndex(s, e.a); }
    } else { EntriesStay(s, e); }
  }

  lemma RestartKept(s: State, loaded: Tokens)
    requires Inv(s) && Enabled(s, Restart(loaded))
    ensures Inv(Apply(s, Restart(loaded)))
  {
    var t := Apply(s, Restart(loaded));
    forall id | id in t.rows ensures RowFine(t, id) { assert RowFine(s, id); }
    forall h | h in t.index ensures EntryFine(t, h) { assert RowFine(s, t.index[h].id); }
  }

  lemma StepKept(s: State, e: Event)
    requires Inv(s) && Enabled(s, e)
    ensures Inv(Apply(s, e))
  {
    if e.Restart? {
      RestartKept(s, e.loaded);
    } else {
      LocksKept(s, e);
      RowsKept(s, e);
      EntriesKept(s, e);
      forall a | a in Apply(s, e).workers ensures WorkerFine(Apply(s, e), a) {
        if e.Tick? || a != e.a { OtherWorkerKept(s, e, a); } else { OwnWorkerKept(s, e); }
      }
    }
  }

  lemma RunKept(s: State, events: seq<Event>)
    requires Inv(s) && Run(s, events).Some?
    ensures Inv(Run(s, events).value)
  {
    forall s, e | Inv(s) && Next(s, e).Some? ensures Inv(Next(s, e).value) { StepKept(s, e); }
    Runs.InvariantHolds(Next, s => Inv(s), s, events);
  }
}
