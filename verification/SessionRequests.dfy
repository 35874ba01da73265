/**
 What each request of the session service does when no other one is inside the barrier: from every
 such state its steps can be taken, one after the other, and end in exactly the stated rows and index.
 */
module SessionRequests {
  import opened Base
  import opened SessionIndex
  import opened SessionProtocol
  import Runs

  /** Nobody holds the credentials lock or stands inside the barrier. */
  predicate Free(s: State) {
    s.credentials.None? && forall b :: b in s.workers ==> !s.workers[b].inside
  }

  predicate Ends(s: State, t: State) { t.workers == s.workers && t.credentials.None? && t.clock == s.clock }

  /** What a load puts into the index: the rows that expire in a later second, with the stored profile. */
  ghost predicate Loaded(index: Sessions, db: Database, now: Instant) {
    && (forall h :: h in index <==> h in db.rows && db.rows[h].expires > now / 1_000_000_000)
    && (forall h :: h in index ==>
          index[h] == Identity(db.rows[h].id, 1, db.rows[h].csrf, db.profile, db.rows[h].expires * 1_000_000_000))
  }

  // ---------------------------------------------------------------- runs

  /** A request inside the barrier, before it writes. */
  function Opened(s: State, a: Actor, k: Kind, p: Phase): State {
    s.(workers := s.workers[a := Worker(k, p, true)],
       credentials := if NeedsCredentials(k) then Some(a) else None,
       past := if k.Login? then s.past.(issued := s.past.issued[k.d.hash := Issue(k.d, a)]) else s.past)
  }

  function Opening(a: Actor, k: Kind): seq<Event> {
    if k.Login? then [Start(a, k), LockCredentials(a), Check(a), Enter(a)]
    else if NeedsCredentials(k) then [Start(a, k), LockCredentials(a), Enter(a)]
    else [Start(a, k), Enter(a)]
  }

  function Closing(a: Actor, k: Kind): seq<Event> {
    [if k.Load? then ReadRows(a) else WriteRow(a), WriteIndex(a), Finish(a)]
  }

  function Events(a: Actor, k: Kind): seq<Event> { Opening(a, k) + Closing(a, k) }

  function Ready(s: State, k: Kind): Phase { if k.Login? then Checked(s.db.profile, |s.past.kept|) else Begun }

  lemma LoginOpens(s: State, a: Actor, k: Kind)
    requires Free(s) && a !in s.workers && MayStart(s, k) && k.Login?
    ensures Run(s, Opening(a, k)) == Some(Opened(s, a, k, Ready(s, k)))
  {
    var e := Opening(a, k);
    var s1 := Apply(s, e[0]);
    var s2 := Apply(s1, e[1]);
    var s3 := Apply(s2, e[2]);
    var s4 := Apply(s3, e[3]);
    assert s4.workers == Opened(s, a, k, Ready(s, k)).workers;
    Runs.TraceRuns(Next, [s, s1, s2, s3, s4], e);
  }

  lemma LockedOpens(s: State, a: Actor, k: Kind)
    requires Free(s) && a !in s.workers && MayStart(s, k) && NeedsCredentials(k) && !k.Login?
    ensures Run(s, Opening(a, k)) == Some(Opened(s, a, k, Begun))
  {
    var e := Opening(a, k);
    var s1 := Apply(s, e[0]);
    var s2 := Apply(s1, e[1]);
    var s3 := Apply(s2, e[2]);
    assert s3.workers == Opened(s, a, k, Begun).workers;
    Runs.TraceRuns(Next, [s, s1, s2, s3], e);
  }

  lemma PlainOpens(s: State, a: Actor, k: Kind)
    requires Free(s) && a !in s.workers && MayStart(s, k) && !NeedsCredentials(k)
    ensures Run(s, Opening(a, k)) == Some(Opened(s, a, k, Begun))
  {
    var e := Opening(a, k);
    var s1 := Apply(s, e[0]);
    var s2 := Apply(s1, e[1]);
    assert s2.workers == Opened(s, a, k, Begun).workers;
    Runs.TraceRuns(Next, [s, s1, s2], e);
  }

  /** What a request has written when it ends. */
  function Written(s: State, k: Kind): (Database, Sessions) {
    if k.Load? then (s.db, IndexWritten(s.index, Worker(k, Read(Listed(s.db, k.now)), true)))
    else (RowWritten(s.db, k), IndexWritten(s.index, Worker(k, Stored(s.db.profile), true)))
  }

  lemma ChangeCloses(s: State, a: Actor, k: Kind)
    requires a !in s.workers && !k.Load?
    ensures Run(Opened(s, a, k, Ready(s, k)), Closing(a, k)).Some?
    ensures var t := Run(Opened(s, a, k, Ready(s, k)), Closing(a, k)).value;
      && Ends(s, t) && (t.db, t.index) == Written(s, k)
      && t.past.returned == s.past.returned + if k.Login? then {k.d.hash} else {}
  {
    var e := Closing(a, k);
    var s0 := Opened(s, a, k, Ready(s, k));
    var s1 := Apply(s0, e[0]);
    var s2 := Apply(s1, e[1]);
    Runs.TraceRuns(Next, [s0, s1, s2, Apply(s2, e[2])], e);
  }

  lemma LoadCloses(s: State, a: Actor, k: Kind)
    requires a !in s.workers && k.Load?
    ensures Run(Opened(s, a, k, Begun), Closing(a, k)).Some?
    ensures var t := Run(Opened(s, a, k, Begun), Closing(a, k)).value;
      Ends(s, t) && (t.db, t.index) == Written(s, k) && t.past == s.past
  {
    var e := Closing(a, k);
    var s0 := Opened(s, a, k, Begun);
    var s1 := Apply(s0, e[0]);
    var s2 := Apply(s1, e[1]);
    Runs.TraceRuns(Next, [s0, s1, s2, Apply(s2, e[2])], e);
  }

  lemma Alone(s: State, a: Actor, k: Kind)
    requires Free(s) && a !in s.workers && MayStart(s, k)
    ensures Run(s, Events(a, k)).Some?
    ensures var t := Run(s, Events(a, k)).value;
      && Ends(s, t) && (t.db, t.index) == Written(s, k)
      && t.past.returned == s.past.returned + if k.Login? then {k.d.hash} else {}
  {
    if k.Login? { LoginOpens(s, a, k); } else if NeedsCredentials(k) { LockedOpens(s, a, k); } else { PlainOpens(s, a, k); }
    if k.Load? { LoadCloses(s, a, k); } else { ChangeCloses(s, a, k); }
    Runs.RunAppend(Next, s, Opening(a, k), Closing(a, k));
  }

  // ---------------------------------------------------------------- requests

  /** A login adds one session, for a day, with the stored profile, and returns its token. */
  lemma LoginAlone(s: State, a: Actor, d: Draft)
    requires Free(s) && a !in s.workers && d.hash !in s.past.issued && d.at <= s.clock
    ensures Run(s, Events(a, Login(d))).Some?
    ensures var t := Run(s, Events(a, Login(d))).value;
      && Ends(s, t) && t.past.returned == s.past.returned + {d.hash}
      && t.db == Database(s.db.profile, s.db.rows[d.hash := Row(d.id, d.csrf, (d.at + 86_400_000_000_000) / 1_000_000_000)])
      && t.index == s.index[d.hash := Identity(d.id, 1, d.csrf, s.db.profile, d.at + 86_400_000_000_000)]
  {
    Alone(s, a, Login(d));
  }

  /** A profile update changes the stored profile and the administrator's entries, nothing else. */
  lemma UpdateProfileAlone(s: State, a: Actor, p: Profile)
    requires Free(s) && a !in s.workers
    ensures Run(s, Events(a, UpdateProfile(p))).Some?
    ensures var t := Run(s, Events(a, UpdateProfile(p))).value;
      && Ends(s, t) && t.db == Database(p, s.db.rows) && t.index.Keys == s.index.Keys
      && (forall h :: h in s.index ==> t.index[h] == if s.index[h].admin == 1 then s.index[h].(profile := p) else s.index[h])
  {
    Alone(s, a, UpdateProfile(p));
  }

  /** A password change leaves at most the kept session. */
  lemma ChangePasswordAlone(s: State, a: Actor, keep: Hash)
    requires Free(s) && a !in s.workers
    ensures Run(s, Events(a, ChangePassword(keep))).Some?
    ensures var t := Run(s, Events(a, ChangePassword(keep))).value;
      && Ends(s, t) && t.db.profile == s.db.profile
      && t.db.rows == (if keep in s.db.rows then map[keep := s.db.rows[keep]] else map[])
      && t.index == (if keep in s.index then map[keep := s.index[keep]] else map[])
  {
    Alone(s, a, ChangePassword(keep));
  }

  /** A logout removes one session. */
  lemma LogoutAlone(s: State, a: Actor, hash: Hash)
    requires Free(s) && a !in s.workers && hash in s.past.returned
    ensures Run(s, Events(a, Logout(hash))).Some?
    ensures var t := Run(s, Events(a, Logout(hash))).value;
      Ends(s, t) && t.db == Database(s.db.profile, s.db.rows - {hash}) && t.index == s.index - {hash}
  {
    Alone(s, a, Logout(hash));
  }

  /** A cleanup removes what has expired: rows by the second, entries by the nanosecond. */
  lemma CleanupAlone(s: State, a: Actor, now: Instant)
    requires Free(s) && a !in s.workers && now <= s.clock
    ensures Run(s, Events(a, Cleanup(now))).Some?
    ensures var t := Run(s, Events(a, Cleanup(now))).value;
      && Ends(s, t) && t.db.profile == s.db.profile
      && (forall h :: h in t.db.rows <==> h in s.db.rows && s.db.rows[h].expires > now / 1_000_000_000)
      && (forall h :: h in t.db.rows ==> t.db.rows[h] == s.db.rows[h])
      && (forall h :: h in t.index <==> h in s.index && s.index[h].expires > now)
      && (forall h :: h in t.index ==> t.index[h] == s.index[h])
  {
    Alone(s, a, Cleanup(now));
  }

  /** A load replaces the index by the unexpired rows, with the stored profile. */
  lemma LoadAlone(s: State, a: Actor, now: Instant)
    requires Free(s) && a !in s.workers && now <= s.clock
    ensures Run(s, Events(a, Load(now))).Some?
    ensures var t := Run(s, Events(a, Load(now))).value;
      Ends(s, t) && t.db == s.db && Loaded(t.index, s.db, now)
  {
    Alone(s, a, Load(now));
  }

  /** A crash loses every request in flight, keeps the rows, and loads the index from them. */
  lemma RestartLoads(s: State)
    ensures var t := Apply(s, Restart);
      && t.workers == map[] && t.credentials.None? && t.db == s.db && t.clock == s.clock && t.past == s.past
      && Loaded(t.index, s.db, s.clock)
  {
  }
}
