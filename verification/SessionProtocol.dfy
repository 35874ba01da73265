/**
 Sessions (internal/auth): rows and index changed by concurrent logins, logouts, profile updates,
 password changes, cleanups and loads. Every event is one atomic step of one request.
 */
module SessionProtocol {
  import opened Base
  import opened SessionIndex
  import Runs

  type Actor = nat

  const LIFETIME: nat := 24 * 3600 * SECOND

  /** There is one administrator. */
  const ADMIN: nat := 1

  datatype Row = Row(id: nat, csrf: nat, expires: nat)

  /** The repository: the administrator's profile, and the sessions by token hash. */
  datatype Database = Database(profile: Profile, rows: map<Hash, Row>)

  /** ListActiveSessions: rows that have not expired in whole seconds, with the stored profile. */
  function Listed(db: Database, now: Instant): Sessions {
    map h | h in db.rows && db.rows[h].expires > Unix(now) ::
      Identity(db.rows[h].id, ADMIN, db.rows[h].csrf, db.profile, FromUnix(db.rows[h].expires))
  }

  // ---------------------------------------------------------------- jobs

  /** A session about to be created at instant `at`. */
  datatype Draft = Draft(hash: Hash, id: nat, csrf: nat, at: Instant)

  function RowOf(d: Draft): Row { Row(d.id, d.csrf, Unix(d.at + LIFETIME)) }

  function IdentityOf(d: Draft, p: Profile): Identity { Identity(d.id, ADMIN, d.csrf, p, d.at + LIFETIME) }

  /** Each job writes its row, then the index. `Checked` holds what a login read of the administrator. */
  datatype Phase = Begun | Checked(seen: Profile, version: nat) | Stored(before: Profile) | Shown | Read(found: Sessions)

  datatype Kind =
    | Login(d: Draft)
    | UpdateProfile(to: Profile)
    | ChangePassword(keep: Hash)
    | Logout(hash: Hash)
    | Cleanup(now: Instant)
    | Load(now: Instant)

  datatype Worker = Worker(kind: Kind, phase: Phase, inside: bool)

  /** History: the sessions issued and by whom, those returned, and every password change's kept session. */
  datatype Issue = Issue(d: Draft, owner: Actor)

  datatype History = History(issued: map<Hash, Issue>, verified: map<Hash, nat>, returned: set<Hash>, kept: seq<Hash>)

  datatype State = State(
    db: Database, index: Sessions, workers: map<Actor, Worker>, credentials: Option<Actor>, clock: Instant, past: History)

  predicate NeedsCredentials(k: Kind) { k.Login? || k.UpdateProfile? || k.ChangePassword? }

  // ---------------------------------------------------------------- steps

  datatype Event =
    | Tick(dt: nat)
    | Restart
    | Start(a: Actor, kind: Kind)
    | LockCredentials(a: Actor)
    | Check(a: Actor)
    | Enter(a: Actor)
    | WriteRow(a: Actor)
    | WriteIndex(a: Actor)
    | ReadRows(a: Actor)
    | Finish(a: Actor)

  /** A token can only be logged out once its login has returned it. */
  predicate MayStart(s: State, k: Kind) {
    match k
    case Login(d) => d.hash !in s.past.issued && d.at <= s.clock
    case Logout(h) => h in s.past.returned
    case Cleanup(now) => now <= s.clock
    case Load(now) => now <= s.clock
    case _ => true
  }

  /** The barrier: shared by changes, exclusive for a load. */
  predicate BarrierFree(s: State, k: Kind) {
    forall b :: b in s.workers && s.workers[b].inside ==> !k.Load? && !s.workers[b].kind.Load?
  }

  predicate Midway(w: Worker) { w.phase.Stored? }

  predicate ReadyToStore(w: Worker) {
    w.inside && if w.kind.Login? then w.phase.Checked? else w.phase.Begun? && !w.kind.Load?
  }

  predicate Enabled(s: State, e: Event) {
    match e
    case Tick(_) => true
    case Restart => true
    case Start(a, k) => a !in s.workers && MayStart(s, k)
    case LockCredentials(a) => a in s.workers && NeedsCredentials(s.workers[a].kind) && s.credentials.None?
    case Check(a) => a in s.workers && s.workers[a].kind.Login? && s.workers[a].phase.Begun? && s.credentials == Some(a)
    case Enter(a) =>
      && a in s.workers && !s.workers[a].inside && BarrierFree(s, s.workers[a].kind)
      && (NeedsCredentials(s.workers[a].kind) ==> s.credentials == Some(a))
    case WriteRow(a) => a in s.workers && ReadyToStore(s.workers[a])
    case WriteIndex(a) => a in s.workers && if s.workers[a].kind.Load? then s.workers[a].phase.Read? else s.workers[a].phase.Stored?
    case ReadRows(a) => a in s.workers && s.workers[a].kind.Load? && s.workers[a].phase.Begun? && s.workers[a].inside
    case Finish(a) => a in s.workers && !Midway(s.workers[a])
  }

  function Goto(s: State, a: Actor, p: Phase): map<Actor, Worker>
    requires a in s.workers
  {
    s.workers[a := s.workers[a].(phase := p)]
  }

  function RowWritten(db: Database, k: Kind): Database {
    match k
    case Login(d) => db.(rows := db.rows[d.hash := RowOf(d)])
    case UpdateProfile(p) => db.(profile := p)
    case ChangePassword(keep) => db.(rows := map h | h in db.rows && h == keep :: db.rows[h])
    case Logout(hash) => db.(rows := db.rows - {hash})
    case Cleanup(now) => db.(rows := map h | h in db.rows && db.rows[h].expires > Unix(now) :: db.rows[h])
    case Load(_) => db
  }

  function Recorded(past: History, w: Worker): History {
    match w.kind
    case Login(d) => if w.phase.Checked? then past.(verified := past.verified[d.hash := w.phase.version]) else past
    case ChangePassword(keep) => past.(kept := past.kept + [keep])
    case _ => past
  }

  /** A login publishes the profile it read; a profile update passes its own arguments. */
  function IndexWritten(index: Sessions, w: Worker): Sessions {
    match w.kind
    case Login(d) => if w.phase.Stored? then index[d.hash := IdentityOf(d, w.phase.before)] else index
    case UpdateProfile(p) => WithProfile(index, ADMIN, p)
    case ChangePassword(keep) => OnlyKept(index, keep)
    case Logout(hash) => index - {hash}
    case Cleanup(now) => Purged(index, now)
    case Load(_) => if w.phase.Read? then w.phase.found else index
  }

  function Apply(s: State, e: Event): State
    requires Enabled(s, e)
  {
    match e
    case Tick(dt) => s.(clock := s.clock + dt)
    case Restart => s.(workers := map[], credentials := None, index := Listed(s.db, s.clock))
    case Start(a, k) =>
      s.(workers := s.workers[a := Worker(k, Begun, false)],
         past := if k.Login? then s.past.(issued := s.past.issued[k.d.hash := Issue(k.d, a)]) else s.past)
    case LockCredentials(a) => s.(credentials := Some(a))
    case Check(a) => s.(workers := Goto(s, a, Checked(s.db.profile, |s.past.kept|)))
    case Enter(a) => s.(workers := s.workers[a := s.workers[a].(inside := true)])
    case WriteRow(a) =>
      var w := s.workers[a];
      s.(workers := Goto(s, a, Stored(if w.phase.Checked? then w.phase.seen else s.db.profile)),
         db := RowWritten(s.db, w.kind), past := Recorded(s.past, w))
    case WriteIndex(a) => s.(workers := Goto(s, a, Shown), index := IndexWritten(s.index, s.workers[a]))
    case ReadRows(a) => s.(workers := Goto(s, a, Read(Listed(s.db, s.workers[a].kind.now))))
    case Finish(a) =>
      var w := s.workers[a];
      s.(workers := s.workers - {a}, credentials := if s.credentials == Some(a) then None else s.credentials,
         past := if w.kind.Login? && w.phase.Shown? then s.past.(returned := s.past.returned + {w.kind.d.hash}) else s.past)
  }

  predicate Initial(s: State) {
    && s.db.rows == map[] && s.index == map[] && s.workers == map[] && s.credentials.None?
    && s.past == History(map[], map[], {}, [])
  }

  function Next(s: State, e: Event): Option<State> { if Enabled(s, e) then Some(Apply(s, e)) else None }

  function Run(s: State, events: seq<Event>): Option<State> { Runs.Run(Next, s, events) }

  // ---------------------------------------------------------------- the invariant

  /** The worker holding the credentials lock, if it has written its row and not yet the index. */
  function Pending(s: State): Option<Worker> {
    if s.credentials.Some? && s.credentials.value in s.workers && s.workers[s.credentials.value].phase.Stored?
    then Some(s.workers[s.credentials.value]) else None
  }

  /** The profile every index entry carries: an update in flight has not reached the index yet. */
  function ShownProfile(s: State): Profile {
    if Pending(s).Some? && Pending(s).value.kind.UpdateProfile? then Pending(s).value.phase.before else s.db.profile
  }

  /** The password changes that have reached the index. */
  function ShownChanges(s: State): nat {
    if Pending(s).Some? && Pending(s).value.kind.ChangePassword? && |s.past.kept| > 0 then |s.past.kept| - 1 else |s.past.kept|
  }

  predicate Unexpired(s: State, h: Hash) {
    h in s.past.issued && RowOf(s.past.issued[h].d).expires > Unix(s.clock)
  }

  predicate Adding(s: State, h: Hash) {
    Pending(s).Some? && Pending(s).value.kind.Login? && Pending(s).value.kind.d.hash == h
  }

  predicate LoggingOut(s: State, h: Hash, a: Actor) {
    a in s.workers && s.workers[a].kind == Logout(h) && s.workers[a].phase.Stored?
  }

  predicate Leaving(s: State, h: Hash) {
    || (exists a :: a in s.workers && LoggingOut(s, h, a))
    || (Pending(s).Some? && Pending(s).value.kind.ChangePassword? && Pending(s).value.kind.keep != h)
  }

  /** Verified against version `v`, a session survives the first `n` password changes only as the kept one. */
  predicate Survives(h: Hash, v: nat, kept: seq<Hash>, n: nat)
    requires n <= |kept|
  {
    forall i :: v <= i < n ==> kept[i] == h
  }

  predicate RowFine(s: State, h: Hash)
    requires h in s.db.rows
  {
    && h in s.past.issued && s.db.rows[h] == RowOf(s.past.issued[h].d)
    && h in s.past.verified && Survives(h, s.past.verified[h], s.past.kept, |s.past.kept|)
  }

  predicate EntryFine(s: State, h: Hash)
    requires h in s.index
  {
    var i := s.index[h];
    && h in s.past.issued && h in s.past.verified && !Adding(s, h)
    && i.(expires := 0) == IdentityOf(s.past.issued[h].d, ShownProfile(s)).(expires := 0)
    && (i.expires == s.past.issued[h].d.at + LIFETIME || i.expires == FromUnix(RowOf(s.past.issued[h].d).expires))
    && Survives(h, s.past.verified[h], s.past.kept, ShownChanges(s))
  }

  /** Row and entry go together, except while a job stands between its two writes. */
  predicate PairFine(s: State, h: Hash) {
    Unexpired(s, h) ==>
      && (Adding(s, h) ==> h in s.db.rows)
      && (h in s.db.rows && !Adding(s, h) ==> h in s.index)
      && (h in s.index && h !in s.db.rows ==> Leaving(s, h))
  }

  predicate WorkerFine(s: State, a: Actor)
    requires a in s.workers
  {
    var w := s.workers[a];
    && (NeedsCredentials(w.kind) && (w.inside || !w.phase.Begun?) ==> s.credentials == Some(a))
    && (w.phase.Stored? || w.phase.Read? ==> w.inside)
    && (w.phase.Checked? ==> w.kind.Login? && w.phase.seen == s.db.profile && w.phase.version == |s.past.kept|)
    && match w.kind
       case Login(d) =>
         && d.hash in s.past.issued && s.past.issued[d.hash] == Issue(d, a) && d.hash !in s.past.returned
         && (w.phase.Begun? || w.phase.Checked? ==> d.hash !in s.past.verified)
         && (w.phase.Stored? || w.phase.Shown? ==> d.hash in s.past.verified)
         && (w.phase.Stored? ==> w.phase.before == s.db.profile && s.past.verified[d.hash] == |s.past.kept|)
         && !w.phase.Read?
       case Logout(h) => h in s.past.returned && !w.phase.Read? && (w.phase.Stored? ==> h !in s.db.rows)
       case ChangePassword(keep) =>
         !w.phase.Read? && (w.phase.Stored? ==>
           && |s.past.kept| > 0 && s.past.kept[|s.past.kept| - 1] == keep
           && (forall h :: h in s.db.rows ==> h == keep))
       case UpdateProfile(_) => !w.phase.Read? && (w.phase.Stored? || w.phase.Shown? ==> s.db.profile == w.kind.to)
       case Cleanup(now) => now <= s.clock && !w.phase.Read?
       case Load(now) => now <= s.clock && !w.phase.Stored? && (w.phase.Read? ==> w.phase.found == Listed(s.db, now))
  }

  predicate BarrierFine(s: State) {
    forall a, b :: a in s.workers && b in s.workers && s.workers[a].inside && s.workers[b].inside && s.workers[a].kind.Load? ==> a == b
  }

  predicate PastFine(s: State) {
    && s.past.verified.Keys <= s.past.issued.Keys && s.past.returned <= s.past.verified.Keys
    && (forall h :: h in s.past.verified ==> s.past.verified[h] <= |s.past.kept|)
    && (forall h :: h in s.past.issued ==> s.past.issued[h].d.at <= s.clock)
  }

  ghost predicate Inv(s: State) {
    && (s.credentials.Some? ==> s.credentials.value in s.workers && NeedsCredentials(s.workers[s.credentials.value].kind))
    && BarrierFine(s) && PastFine(s)
    && (forall a :: a in s.workers ==> WorkerFine(s, a))
    && (forall h :: h in s.db.rows ==> RowFine(s, h))
    && (forall h :: h in s.index ==> EntryFine(s, h))
    && (forall h :: PairFine(s, h))
  }
}
