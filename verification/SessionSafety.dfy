/** What the session protocol guarantees in every reachable state. */
module SessionSafety {
  import opened Base
  import opened SessionIndex
  import opened SessionProtocol
  import opened SessionSteps
  import Runs

  /** No request stands between its row write and its index write. */
  predicate Quiet(s: State) {
    forall a :: a in s.workers ==> !Midway(s.workers[a])
  }

  /** What authentication answers now for a token with this hash. */
  function Authenticated(s: State, h: Hash): Option<Identity> { Get(s.index, h, s.clock) }

  /** The identity says what the row and the administrator say, expiry compared in whole seconds. */
  predicate Says(i: Identity, row: Row, profile: Profile) {
    i.id == row.id && i.csrf == row.csrf && i.admin == ADMIN && i.profile == profile && Unix(i.expires) == row.expires
  }

  /** In a quiet state, an indexed session not expired in whole seconds is exactly a stored one, with the current profile. */
  lemma QuietSessionsAgree(s: State, h: Hash)
    requires Inv(s) && Quiet(s)
    ensures (h in s.index && Unix(s.index[h].expires) > Unix(s.clock)) <==> (h in s.db.rows && s.db.rows[h].expires > Unix(s.clock))
    ensures h in s.index && Unix(s.index[h].expires) > Unix(s.clock) ==> Says(s.index[h], s.db.rows[h], s.db.profile)
  {
    assert PairFine(s, h);
    if h in s.index {
      assert EntryFine(s, h);
      UnixOfFromUnix(RowOf(s.past.issued[h].d).expires);
    }
    if h in s.db.rows { assert RowFine(s, h); }
  }

  /** The session is stored and unexpired, in whole seconds. */
  predicate Owed(s: State, h: Hash) { h in s.db.rows && s.db.rows[h].expires > Unix(s.clock) }

  /** The entry expires later within the second in which the row already has. */
  predicate LastSecond(s: State, h: Hash) {
    h in s.index && s.index[h].expires > s.clock && Unix(s.index[h].expires) == Unix(s.clock)
  }

  /** In a quiet state a session authenticates exactly when it is owed to, but for the last second. */
  lemma QuietSessionsExactly(s: State, h: Hash)
    requires Inv(s) && Quiet(s)
    ensures (Authenticated(s, h).Some? <==> Owed(s, h)) <==> !LastSecond(s, h)
    ensures Authenticated(s, h).Some? && Owed(s, h) ==> Says(Authenticated(s, h).value, s.db.rows[h], s.db.profile)
  {
    QuietSessionsAgree(s, h);
    if h in s.index { ExpiryInSeconds(s.index[h].expires, s.clock); }
  }

  /** The same for every run: logins, logouts, updates, password changes, cleanups, loads and crashes. */
  lemma EveryQuietState(s0: State, events: seq<Event>, h: Hash)
    requires Initial(s0) && Run(s0, events).Some? && Quiet(Run(s0, events).value)
    ensures var s := Run(s0, events).value;
      && ((Authenticated(s, h).Some? <==> Owed(s, h)) <==> !LastSecond(s, h))
      && (Authenticated(s, h).Some? && Owed(s, h) ==> Says(Authenticated(s, h).value, s.db.rows[h], s.db.profile))
  {
    InitialFine(s0);
    RunKept(s0, events);
    QuietSessionsExactly(Run(s0, events).value, h);
  }

  /** No session outlives its day: whatever happened before, and is going on, a day later every present token is refused. */
  lemma EverySessionEnds(s0: State, events: seq<Event>, h: Hash)
    requires Initial(s0) && Run(s0, events).Some?
    ensures var t := Apply(Run(s0, events).value, Tick(86_400_000_000_000));
      Authenticated(t, h).None? && t.clock == Run(s0, events).value.clock + 86_400_000_000_000
  {
    InitialFine(s0);
    RunKept(s0, events);
    var s := Run(s0, events).value;
    if h in s.index { assert EntryFine(s, h); }
  }

  /** A session made on a whole second has no last second. */
  lemma WholeSecondsAreExact(s: State, h: Hash)
    requires Inv(s) && Quiet(s) && h in s.past.issued
    requires var at := s.past.issued[h].d.at; at == FromUnix(Unix(at))
    ensures Authenticated(s, h).Some? <==> Owed(s, h)
  {
    QuietSessionsExactly(s, h);
    if h in s.index {
      assert EntryFine(s, h);
      LifetimeIsWhole(s.past.issued[h].d.at);
      UnixOfFromUnix(Unix(s.past.issued[h].d.at + LIFETIME));
      WholeInstant(s.index[h].expires, s.clock);
    }
  }

  lemma LifetimeIsWhole(at: Instant)
    requires at == FromUnix(Unix(at))
    ensures at + LIFETIME == FromUnix(Unix(at + LIFETIME))
  {
  }

  // ---------------------------------------------------------------- password changes

  /** Once a password change has reached the index, the kept session is the only one left. */
  lemma ChangeRevokesOthers(s: State, a: Actor)
    requires Inv(s) && Enabled(s, WriteIndex(a)) && s.workers[a].kind.ChangePassword?
    ensures var t := Apply(s, WriteIndex(a));
      && t.index.Keys <= {s.workers[a].kind.keep} && t.db.rows.Keys <= {s.workers[a].kind.keep}
      && ShownChanges(t) == |t.past.kept| > 0 && t.past.kept[|t.past.kept| - 1] == s.workers[a].kind.keep
  {
    PendingAfterIndex(s, a);
    assert WorkerFine(s, a);
  }

  /**
   In every run, a session that authenticates although it was verified against an older password
   is the one that each later password change kept.
   */
  lemma OlderSessionsWereKept(s0: State, events: seq<Event>, h: Hash, n: nat)
    requires Initial(s0) && Run(s0, events).Some?
    requires var s := Run(s0, events).value;
      Authenticated(s, h).Some? && h in s.past.verified && s.past.verified[h] <= n < ShownChanges(s)
    ensures Run(s0, events).value.past.kept[n] == h
  {
    InitialFine(s0);
    RunKept(s0, events);
    assert EntryFine(Run(s0, events).value, h);
  }

  // ---------------------------------------------------------------- logging out

  /** No row, no index entry, and no job about to make one. */
  predicate Gone(s: State, h: Hash) {
    && h in s.past.returned && h !in s.db.rows && h !in s.index
  }

  lemma GoneKept(s: State, e: Event, h: Hash)
    requires Inv(s) && Enabled(s, e) && Gone(s, h)
    ensures Gone(Apply(s, e), h)
  {
    if (e.WriteRow? || e.WriteIndex?) { assert WorkerFine(s, e.a); }
  }

  lemma GoneForever(s: State, events: seq<Event>, h: Hash)
    requires Inv(s) && Run(s, events).Some? && Gone(s, h)
    ensures Gone(Run(s, events).value, h)
  {
    forall s, e | Inv(s) && Gone(s, h) && Next(s, e).Some? ensures Inv(Next(s, e).value) && Gone(Next(s, e).value, h) {
      StepKept(s, e);
      GoneKept(s, e, h);
    }
    Runs.InvariantHolds(Next, s => Inv(s) && Gone(s, h), s, events);
  }

  /** After Logout has written the index, the token never authenticates again, whatever follows. */
  lemma LoggedOutForever(s: State, a: Actor, later: seq<Event>)
    requires Inv(s) && Enabled(s, WriteIndex(a)) && s.workers[a].kind.Logout?
    requires Run(s, [WriteIndex(a)] + later).Some?
    ensures Authenticated(Run(s, [WriteIndex(a)] + later).value, s.workers[a].kind.hash).None?
  {
    var h := s.workers[a].kind.hash;
    assert WorkerFine(s, a);
    StepKept(s, WriteIndex(a));
    assert ([WriteIndex(a)] + later)[1..] == later;
    GoneForever(Apply(s, WriteIndex(a)), later, h);
  }

  // ---------------------------------------------------------------- the last second

  /**
   The whole-second comparison is needed: a session made within a second is stored as expiring at
   its start, so a cleanup during its last second deletes the row and leaves the entry.
   */
  function Draft0(): Draft { Draft(7, 1, 1, 1) }

  const WHO := Profile("Admin", "admin@example.org")

  function Begin(): State { State(Database(WHO, map[]), map[], map[], None, 0, History(map[], map[], {}, [])) }

  function Checking(): seq<Event> { [Tick(1), Start(0, Login(Draft0())), LockCredentials(0), Check(0)] }

  function LoggingIn(): seq<Event> { [Enter(0), WriteRow(0)] }

  function Returning(): seq<Event> { [WriteIndex(0), Finish(0)] }

  function Expiring(): seq<Event> { [Tick(LIFETIME - 1), Start(1, Cleanup(LIFETIME)), Enter(1), WriteRow(1)] }

  function Purging(): seq<Event> { [WriteIndex(1), Finish(1)] }

  function Checked0(): State {
    State(Database(WHO, map[]), map[], map[0 := Worker(Login(Draft0()), Checked(WHO, 0), false)], Some(0), 1,
          History(map[7 := Issue(Draft0(), 0)], map[], {}, []))
  }

  function RowStored(): State {
    Checked0().(db := Database(WHO, map[7 := RowOf(Draft0())]), workers := map[0 := Worker(Login(Draft0()), Stored(WHO), true)],
                past := History(map[7 := Issue(Draft0(), 0)], map[7 := 0], {}, []))
  }

  function LoggedIn(): State {
    State(Database(WHO, map[7 := RowOf(Draft0())]), map[7 := IdentityOf(Draft0(), WHO)], map[], None, 1,
          History(map[7 := Issue(Draft0(), 0)], map[7 := 0], {7}, []))
  }

  /** The row expired with its second; the entry lasts to the nanosecond. */
  function RowPurged(): State {
    LoggedIn().(db := Database(WHO, map[]), clock := LIFETIME,
                workers := map[1 := Worker(Cleanup(LIFETIME), Stored(WHO), true)])
  }

  /** States are equal when their parts are. */
  lemma SameState(s: State, t: State)
    requires s.db.profile == t.db.profile && s.db.rows == t.db.rows && s.index == t.index
    requires s.workers == t.workers && s.credentials == t.credentials && s.clock == t.clock
    requires s.past.issued == t.past.issued && s.past.verified == t.past.verified
    requires s.past.returned == t.past.returned && s.past.kept == t.past.kept
    ensures s == t
  {
  }

  lemma CheckingRun()
    ensures Run(Begin(), Checking()) == Some(Checked0())
  {
    Runs.FourSteps(Next, Begin(), Checking());
    SameState(Run(Begin(), Checking()).value, Checked0());
  }

  lemma LoggingInRun()
    ensures Run(Checked0(), LoggingIn()) == Some(RowStored())
  {
    Runs.TwoSteps(Next, Checked0(), LoggingIn());
    SameState(Run(Checked0(), LoggingIn()).value, RowStored());
  }

  lemma ReturningRun()
    ensures Run(RowStored(), Returning()) == Some(LoggedIn())
  {
    Runs.TwoSteps(Next, RowStored(), Returning());
    SameState(Run(RowStored(), Returning()).value, LoggedIn());
  }

  lemma ExpiringRun()
    ensures Run(LoggedIn(), Expiring()) == Some(RowPurged())
  {
    Runs.FourSteps(Next, LoggedIn(), Expiring());
    SameState(Run(LoggedIn(), Expiring()).value, RowPurged());
  }

  lemma PurgeLeavesEntry()
    ensures Apply(RowPurged(), WriteIndex(1)) == RowPurged().(workers := map[1 := Worker(Cleanup(LIFETIME), Shown, true)])
  {
    assert Purged(RowPurged().index, LIFETIME) == RowPurged().index;
  }

  lemma PurgingRun()
    ensures Run(RowPurged(), Purging()) == Some(RowPurged().(workers := map[]))
  {
    var s := RowPurged().(workers := map[1 := Worker(Cleanup(LIFETIME), Shown, true)]);
    PurgeLeavesEntry();
    assert Apply(s, Finish(1)) == RowPurged().(workers := map[]);
    assert Purging()[1..] == [Finish(1)] && Purging()[1..][1..] == [];
    assert Run(s, [Finish(1)]) == Run(Apply(s, Finish(1)), []);
  }

  function LastSecondRun(): seq<Event> { Checking() + LoggingIn() + Returning() + Expiring() + Purging() }

  /** So in a quiet state a session can authenticate, for less than a second, without a row. */
  lemma EntryOutlivesRow()
    ensures Initial(Begin()) && Run(Begin(), LastSecondRun()).Some?
    ensures var s := Run(Begin(), LastSecondRun()).value; Quiet(s) && Authenticated(s, 7).Some? && 7 !in s.db.rows
  {
    CheckingRun();
    LoggingInRun();
    ReturningRun();
    ExpiringRun();
    PurgingRun();
    Runs.RunAppend(Next, Begin(), Checking(), LoggingIn());
    Runs.RunAppend(Next, Begin(), Checking() + LoggingIn(), Returning());
    Runs.RunAppend(Next, Begin(), Checking() + LoggingIn() + Returning(), Expiring());
    Runs.RunAppend(Next, Begin(), Checking() + LoggingIn() + Returning() + Expiring(), Purging());
  }
}
