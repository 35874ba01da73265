/** Every step of the session protocol keeps its invariant. */
module SessionSteps {
  import opened Base
  import opened SessionIndex
  import opened SessionProtocol
  import Runs

  lemma InitialFine(s: State)
    requires Initial(s)
    ensures Inv(s)
  {
  }

  /** A job's own step leaves it in order. */
  lemma OwnWorkerKept(s: State, e: Event)
    requires Inv(s) && Enabled(s, e) && !e.Tick? && !e.Restart?
    ensures e.a in Apply(s, e).workers ==> WorkerFine(Apply(s, e), e.a)
  {
    if e.a in s.workers { assert WorkerFine(s, e.a); }
  }

  /** A row write leaves what other jobs rely on. */
  lemma RowWriteSpares(s: State, a: Actor, b: Actor)
    requires Enabled(s, WriteRow(a)) && b in s.workers && b != a
    requires WorkerFine(s, a) && WorkerFine(s, b) && BarrierFine(s) && PastFine(s)
    ensures b in Apply(s, WriteRow(a)).workers && WorkerFine(Apply(s, WriteRow(a)), b)
  {
  }

  lemma OtherStepSpares(s: State, e: Event, b: Actor)
    requires Enabled(s, e) && !e.Restart? && !e.WriteRow? && b in s.workers && (e.Tick? || e.a != b)
    requires WorkerFine(s, b) && PastFine(s) && (e.Finish? ==> WorkerFine(s, e.a))
    ensures b in Apply(s, e).workers && WorkerFine(Apply(s, e), b)
  {
  }

  /** Other jobs keep what they rely on. */
  lemma OtherWorkerKept(s: State, e: Event, b: Actor)
    requires Inv(s) && Enabled(s, e) && !e.Restart? && b in s.workers && (e.Tick? || e.a != b)
    ensures b in Apply(s, e).workers && WorkerFine(Apply(s, e), b)
  {
    assert WorkerFine(s, b);
    if e.WriteRow? {
      assert WorkerFine(s, e.a);
      RowWriteSpares(s, e.a, b);
    } else {
      if e.Finish? { assert WorkerFine(s, e.a); }
      OtherStepSpares(s, e, b);
    }
  }

  lemma WorkersKept(s: State, e: Event)
    requires Inv(s) && Enabled(s, e) && !e.Restart?
    ensures forall a :: a in Apply(s, e).workers ==> WorkerFine(Apply(s, e), a)
  {
    forall a | a in Apply(s, e).workers ensures WorkerFine(Apply(s, e), a) {
      if e.Tick? || a != e.a { OtherWorkerKept(s, e, a); } else { OwnWorkerKept(s, e); }
    }
  }

  lemma LocksKept(s: State, e: Event)
    requires Inv(s) && Enabled(s, e)
    ensures var t := Apply(s, e);
      && (t.credentials.Some? ==> t.credentials.value in t.workers && NeedsCredentials(t.workers[t.credentials.value].kind))
      && BarrierFine(t) && PastFine(t)
  {
    if e.WriteRow? || e.Finish? { assert WorkerFine(s, e.a); }
  }

  lemma RowsKept(s: State, e: Event)
    requires Inv(s) && Enabled(s, e)
    ensures forall h :: h in Apply(s, e).db.rows ==> RowFine(Apply(s, e), h)
  {
    var t := Apply(s, e);
    if e.WriteRow? { assert WorkerFine(s, e.a); }
    forall h | h in t.db.rows ensures RowFine(t, h) {
      if h in s.db.rows { assert RowFine(s, h); }
    }
  }

  /** A step that writes neither the index nor a row leaves what the index must show as it was. */
  lemma PendingKept(s: State, e: Event)
    requires Inv(s) && Enabled(s, e) && !e.WriteRow? && !e.WriteIndex? && !e.Restart?
    ensures Pending(Apply(s, e)) == Pending(s)
  {
  }

  lemma EntriesKept(s: State, e: Event)
    requires Inv(s) && Enabled(s, e) && !e.WriteRow? && !e.WriteIndex? && !e.Restart?
    ensures forall h :: h in Apply(s, e).index ==> EntryFine(Apply(s, e), h)
  {
    PendingKept(s, e);
    forall h | h in Apply(s, e).index ensures EntryFine(Apply(s, e), h) { assert EntryFine(s, h); }
  }

  lemma LeavingKept(s: State, e: Event, h: Hash)
    requires Inv(s) && Enabled(s, e) && !e.WriteRow? && !e.WriteIndex? && !e.Restart? && Leaving(s, h)
    ensures Leaving(Apply(s, e), h)
  {
    PendingKept(s, e);
    if a :| a in s.workers && LoggingOut(s, h, a) { assert LoggingOut(Apply(s, e), h, a); }
  }

  lemma PairsKept(s: State, e: Event)
    requires Inv(s) && Enabled(s, e) && !e.WriteRow? && !e.WriteIndex? && !e.Restart?
    ensures forall h :: PairFine(Apply(s, e), h)
  {
    var t := Apply(s, e);
    PendingKept(s, e);
    UnixMonotone(s.clock, t.clock);
    forall h ensures PairFine(t, h) {
      assert PairFine(s, h);
      if h in s.index { assert EntryFine(s, h); }
      if h in s.db.rows { assert RowFine(s, h); }
      if Leaving(s, h) { LeavingKept(s, e, h); }
    }
  }

  // ---------------------------------------------------------------- writing rows

  /** Only the holder of the credentials lock can be pending, so a row write by others changes nothing pending. */
  lemma PendingAfterRow(s: State, a: Actor)
    requires Inv(s) && Enabled(s, WriteRow(a))
    ensures var t := Apply(s, WriteRow(a));
      if NeedsCredentials(s.workers[a].kind) then Pending(s).None? && Pending(t) == Some(t.workers[a])
      else Pending(t) == Pending(s)
  {
    assert WorkerFine(s, a);
  }

  lemma RowWriteEntries(s: State, a: Actor)
    requires Inv(s) && Enabled(s, WriteRow(a))
    ensures forall h :: h in Apply(s, WriteRow(a)).index ==> EntryFine(Apply(s, WriteRow(a)), h)
  {
    var t := Apply(s, WriteRow(a));
    PendingAfterRow(s, a);
    assert WorkerFine(s, a);
    forall h | h in t.index ensures EntryFine(t, h) { assert EntryFine(s, h); }
  }

  lemma RowWritePairs(s: State, a: Actor)
    requires Inv(s) && Enabled(s, WriteRow(a))
    ensures forall h :: PairFine(Apply(s, WriteRow(a)), h)
  {
    var t := Apply(s, WriteRow(a));
    PendingAfterRow(s, a);
    assert WorkerFine(s, a);
    forall h ensures PairFine(t, h) {
      assert PairFine(s, h);
      if h in s.index { assert EntryFine(s, h); }
      if h in s.db.rows { assert RowFine(s, h); }
      if s.workers[a].kind == Logout(h) { assert LoggingOut(t, h, a); }
      if b :| b in s.workers && LoggingOut(s, h, b) { assert LoggingOut(t, h, b); }
    }
  }

  // ---------------------------------------------------------------- writing the index

  lemma PendingAfterIndex(s: State, a: Actor)
    requires Inv(s) && Enabled(s, WriteIndex(a))
    ensures var t := Apply(s, WriteIndex(a));
      if NeedsCredentials(s.workers[a].kind) then Pending(s) == Some(s.workers[a]) && Pending(t).None?
      else Pending(t) == Pending(s)
    ensures s.workers[a].kind.Load? ==> Pending(s).None?
  {
    assert WorkerFine(s, a);
    if s.credentials.Some? { assert WorkerFine(s, s.credentials.value); }
  }

  lemma IndexWriteEntries(s: State, a: Actor)
    requires Inv(s) && Enabled(s, WriteIndex(a))
    ensures forall h :: h in Apply(s, WriteIndex(a)).index ==> EntryFine(Apply(s, WriteIndex(a)), h)
  {
    var t := Apply(s, WriteIndex(a));
    PendingAfterIndex(s, a);
    assert WorkerFine(s, a);
    forall h | h in t.index ensures EntryFine(t, h) {
      if h in s.index { assert EntryFine(s, h); }
      if h in s.db.rows { assert RowFine(s, h); }
    }
  }

  /** What has not expired in whole seconds is neither purged nor left out by a load. */
  lemma NotPurgedEarly(s: State, a: Actor)
    requires a in s.workers && WorkerFine(s, a) && (s.workers[a].kind.Cleanup? || s.workers[a].kind.Load?)
    ensures forall t: Instant :: Unix(t) > Unix(s.clock) ==> t > s.workers[a].kind.now
    ensures Unix(s.workers[a].kind.now) <= Unix(s.clock)
  {
    UnixMonotone(s.workers[a].kind.now, s.clock);
  }

  /** A load leaves nobody behind: it is alone inside the barrier. */
  lemma LoadPair(s: State, a: Actor, h: Hash)
    requires Inv(s) && Enabled(s, WriteIndex(a)) && s.workers[a].kind.Load?
    ensures PairFine(Apply(s, WriteIndex(a)), h)
  {
    PendingAfterIndex(s, a);
    assert WorkerFine(s, a);
    NotPurgedEarly(s, a);
    assert PairFine(s, h);
    if h in s.db.rows { assert RowFine(s, h); }
  }

  lemma ChangePair(s: State, a: Actor, h: Hash)
    requires Inv(s) && Enabled(s, WriteIndex(a)) && !s.workers[a].kind.Load?
    ensures PairFine(Apply(s, WriteIndex(a)), h)
  {
    var t := Apply(s, WriteIndex(a));
    PendingAfterIndex(s, a);
    assert WorkerFine(s, a);
    if s.workers[a].kind.Cleanup? { NotPurgedEarly(s, a); }
    assert PairFine(s, h);
    if h in s.index { assert EntryFine(s, h); }
    if h in s.db.rows { assert RowFine(s, h); }
    if b :| b in s.workers && LoggingOut(s, h, b) && b != a { assert LoggingOut(t, h, b); }
  }

  lemma IndexWritePairs(s: State, a: Actor)
    requires Inv(s) && Enabled(s, WriteIndex(a))
    ensures forall h :: PairFine(Apply(s, WriteIndex(a)), h)
  {
    forall h ensures PairFine(Apply(s, WriteIndex(a)), h) {
      if s.workers[a].kind.Load? { LoadPair(s, a, h); } else { ChangePair(s, a, h); }
    }
  }

  lemma RestartKept(s: State)
    requires Inv(s)
    ensures Inv(Apply(s, Restart))
  {
    var t := Apply(s, Restart);
    forall h | h in t.db.rows ensures RowFine(t, h) { assert RowFine(s, h); }
    forall h | h in t.index ensures EntryFine(t, h) {
      assert RowFine(s, h);
      UnixOfFromUnix(s.db.rows[h].expires);
    }
    forall h ensures PairFine(t, h) {
      if h in s.db.rows { assert RowFine(s, h); }
    }
  }

  lemma StepKept(s: State, e: Event)
    requires Inv(s) && Enabled(s, e)
    ensures Inv(Apply(s, e))
  {
    if e.Restart? {
      RestartKept(s);
    } else {
      WorkersKept(s, e);
      LocksKept(s, e);
      RowsKept(s, e);
      if e.WriteRow? {
        RowWriteEntries(s, e.a);
        RowWritePairs(s, e.a);
      } else if e.WriteIndex? {
        IndexWriteEntries(s, e.a);
        IndexWritePairs(s, e.a);
      } else {
        EntriesKept(s, e);
        PairsKept(s, e);
      }
    }
  }

  lemma RunKept(s: State, events: seq<Event>)
    requires Inv(s) && Run(s, events).Some?
    ensures Inv(Run(s, events).value)
  {
    forall s, e | Inv(s) && Next(s, e).Some? ensures Inv(Next(s, e).value) {
      StepKept(s, e);
    }
    Runs.InvariantHolds(Next, s => Inv(s), s, events);
  }
}
