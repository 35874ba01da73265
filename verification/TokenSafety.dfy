/** What the token protocol guarantees in every reachable state. */
module TokenSafety {
  import opened Base
  import opened TokenIndex
  import opened TokenProtocol
  import opened TokenSteps
  import Runs

  /** No mutation stands between its row write and its index write. */
  predicate Quiet(s: State) {
    forall a :: a in s.workers ==> !Midway(s.workers[a])
  }

  /** What authentication answers now for a token with this hash. */
  function Authenticated(s: State, h: Hash): Option<Identity> { Get(s.index, h, s.clock) }

  /** The row is active and unexpired, in whole seconds. */
  predicate Owed(s: State, id: Id) { id in s.rows && s.rows[id].active && Lasting(s.rows[id], s.clock) }

  /** The entry expires later within the second in which the row already has. */
  predicate LastSecond(s: State, h: Hash) {
    && h in s.index && s.index[h].expires.Some?
    && s.index[h].expires.value > s.clock && Unix(s.index[h].expires.value) == Unix(s.clock)
  }

  lemma EntryExpiry(s: State, h: Hash)
    requires h in s.index && EntryFine(s, h) && s.index[h].id in s.rows && RowFine(s, s.index[h].id)
    ensures InSeconds(s.index[h].expires) == s.rows[s.index[h].id].expires
  {
    var row := s.rows[s.index[h].id];
    if row.expires.Some? { UnixOfFromUnix(row.expires.value); }
  }

  /** In a quiet state a token authenticates exactly when it is owed to, but for the last second. */
  lemma QuietTokensAgree(s: State, id: Id)
    requires Inv(s) && Quiet(s) && id in s.rows
    ensures var h := s.rows[id].hash; (Authenticated(s, h).Some? <==> Owed(s, id)) <==> !LastSecond(s, h)
    ensures var i := Authenticated(s, s.rows[id].hash);
      i.Some? ==> i.value.(expires := None) == IdentityOf(id, s.rows[id]).(expires := None)
  {
    var h := s.rows[id].hash;
    assert RowFine(s, id);
    assert Pending(s).None?;
    if h in s.index {
      assert EntryFine(s, h) && RowFine(s, s.index[h].id);
      EntryExpiry(s, h);
      if s.index[h].expires.Some? { ExpiryInSeconds(s.index[h].expires.value, s.clock); }
    }
  }

  /** Nothing authenticates that is not a stored token. */
  lemma OnlyStoredTokens(s: State, h: Hash)
    requires Inv(s) && Authenticated(s, h).Some?
    ensures Authenticated(s, h).value.id in s.rows && s.rows[Authenticated(s, h).value.id].hash == h
  {
    assert EntryFine(s, h);
  }

  /** A token requested without expiry, or with one on a whole second, has no last second. */
  lemma WholeSecondsAreExact(s: State, id: Id)
    requires Inv(s) && Quiet(s) && id in s.rows && id in s.past.issued
    requires var e := s.past.issued[id].d.expires; e.Some? ==> e.value == FromUnix(Unix(e.value))
    ensures Authenticated(s, s.rows[id].hash).Some? <==> Owed(s, id)
  {
    var h := s.rows[id].hash;
    assert RowFine(s, id);
    QuietTokensAgree(s, id);
    if h in s.index {
      assert EntryFine(s, h) && RowFine(s, s.index[h].id);
      EntryExpiry(s, h);
      if s.index[h].expires.Some? { WholeInstant(s.index[h].expires.value, s.clock); }
    }
  }

  /** The same for every run: creations, revocations, cleanups, loads and crashes in any order. */
  lemma EveryQuietState(s0: State, events: seq<Event>, id: Id)
    requires Initial(s0) && Run(s0, events).Some?
    requires Quiet(Run(s0, events).value) && id in Run(s0, events).value.rows
    ensures var s := Run(s0, events).value;
      var h := s.rows[id].hash; (Authenticated(s, h).Some? <==> Owed(s, id)) <==> !LastSecond(s, h)
  {
    InitialFine(s0);
    RunKept(s0, events);
    QuietTokensAgree(Run(s0, events).value, id);
  }

  /** No token outlives the expiry it was created with, whatever happened before and is going on. */
  lemma EveryTokenEnds(s0: State, events: seq<Event>, id: Id, dt: nat)
    requires Initial(s0) && Run(s0, events).Some?
    requires id in Run(s0, events).value.past.issued
    requires var e := Run(s0, events).value.past.issued[id].d.expires;
      e.Some? && e.value <= Run(s0, events).value.clock + dt
    ensures var s := Run(s0, events).value;
      var t := Apply(s, Tick(dt));
      forall h :: Authenticated(t, h).Some? ==> Authenticated(t, h).value.id != id && h in s.index && t.index[h] == s.index[h]
  {
    InitialFine(s0);
    RunKept(s0, events);
    var s := Run(s0, events).value;
    forall h | h in s.index && s.index[h].id == id ensures !Alive(s.index[h], s.clock + dt) {
      assert EntryFine(s, h) && RowFine(s, id);
    }
  }

  // ---------------------------------------------------------------- revocation

  predicate Revoked(s: State, id: Id) {
    id in s.rows && !s.rows[id].active && s.rows[id].hash !in s.index
  }

  lemma RevokedByWrite(s: State, e: Event, id: Id)
    requires Enabled(s, e) && (e.WriteRow? || e.WriteIndex?) && Revoked(s, id) && RowFine(s, id) && WorkerFine(s, e.a)
    requires forall other :: other in s.rows ==> RowFine(s, other)
    ensures Revoked(Apply(s, e), id) && Apply(s, e).rows[id].hash == s.rows[id].hash
  {
  }

  lemma RevokedKept(s: State, e: Event, id: Id)
    requires Inv(s) && Enabled(s, e) && Revoked(s, id)
    ensures Revoked(Apply(s, e), id) && Apply(s, e).rows[id].hash == s.rows[id].hash
  {
    if e.WriteRow? || e.WriteIndex? {
      assert WorkerFine(s, e.a);
      RevokedByWrite(s, e, id);
    }
  }

  lemma RevokedForever(s: State, events: seq<Event>, id: Id)
    requires Inv(s) && Run(s, events).Some? && Revoked(s, id)
    ensures Revoked(Run(s, events).value, id) && Run(s, events).value.rows[id].hash == s.rows[id].hash
  {
    var h := s.rows[id].hash;
    forall s, e | Inv(s) && Revoked(s, id) && s.rows[id].hash == h && Next(s, e).Some?
      ensures var t := Next(s, e).value; Inv(t) && Revoked(t, id) && t.rows[id].hash == h
    {
      StepKept(s, e);
      RevokedKept(s, e, id);
    }
    Runs.InvariantHolds(Next, s => Inv(s) && Revoked(s, id) && s.rows[id].hash == h, s, events);
  }

  /** After Revoke has written the index, the token never authenticates again, whatever follows. */
  lemma NeverAgain(s: State, a: Actor, later: seq<Event>)
    requires Inv(s) && Enabled(s, WriteIndex(a)) && s.workers[a].kind.Revoke?
    requires Run(s, [WriteIndex(a)] + later).Some?
    ensures Authenticated(Run(s, [WriteIndex(a)] + later).value, s.rows[s.workers[a].kind.id].hash).None?
  {
    var id := s.workers[a].kind.id;
    assert WorkerFine(s, a);
    StepKept(s, WriteIndex(a));
    assert ([WriteIndex(a)] + later)[1..] == later;
    RevokedForever(Apply(s, WriteIndex(a)), later, id);
  }

  // ---------------------------------------------------------------- the last second happens

  /** A token asked to expire after a nanosecond: its row is expired at once, its entry is not. */
  function Brief(): Draft { Draft(1, 7, "ist_abc", {ImagesUpload}, Some(1)) }

  function Begin(): State { State(map[], map[], map[], None, 0, History(map[], map[])) }

  function Locking(): seq<Event> { [Start(0, Create(Brief(), 0)), LockMutations(0)] }

  function Storing(): seq<Event> { [Enter(0), WriteRow(0)] }

  function Showing(): seq<Event> { [WriteIndex(0), Finish(0)] }

  function Locked(): State {
    State(map[], map[], map[0 := Worker(Create(Brief(), 0), Begun, false)], Some(0), 0,
          History(map[1 := Issue(Brief(), 0)], map[7 := 1]))
  }

  function RowStored(): State {
    Locked().(rows := map[1 := RowOf(Brief())], workers := map[0 := Worker(Create(Brief(), 0), Stored, true)])
  }

  function Made(): State {
    RowStored().(index := map[7 := Entry(Brief())], workers := map[], mutations := None)
  }

  lemma SameState(s: State, t: State)
    requires s.rows == t.rows && s.index == t.index && s.workers == t.workers && s.mutations == t.mutations
    requires s.clock == t.clock && s.past.issued == t.past.issued && s.past.ids == t.past.ids
    ensures s == t
  {
  }

  lemma LockingRun()
    ensures Run(Begin(), Locking()) == Some(Locked())
  {
    Runs.TwoSteps(Next, Begin(), Locking());
    SameState(Run(Begin(), Locking()).value, Locked());
  }

  lemma StoringRun()
    ensures Run(Locked(), Storing()) == Some(RowStored())
  {
    Runs.TwoSteps(Next, Locked(), Storing());
    SameState(Run(Locked(), Storing()).value, RowStored());
  }

  lemma ShowingRun()
    ensures Run(RowStored(), Showing()) == Some(Made())
  {
    Runs.TwoSteps(Next, RowStored(), Showing());
    SameState(Run(RowStored(), Showing()).value, Made());
  }

  function BriefRun(): seq<Event> { Locking() + Storing() + Showing() }

  lemma LastSecondHappens()
    ensures Initial(Begin()) && Run(Begin(), BriefRun()).Some?
    ensures var s := Run(Begin(), BriefRun()).value;
      Quiet(s) && Authenticated(s, 7).Some? && 1 in s.rows && s.rows[1].hash == 7 && !Owed(s, 1)
  {
    LockingRun();
    StoringRun();
    ShowingRun();
    Runs.RunAppend(Next, Begin(), Locking(), Storing());
    Runs.RunAppend(Next, Begin(), Locking() + Storing(), Showing());
  }
}
