/** The inductive invariant of the three-store protocol. */
module Invariant {
  import opened Base
  import opened Delivery
  import opened Loader
  import opened Protocol
  import Locking
  import AliasPath

  // ---------------------------------------------------------------- rows against the index

  /** What the holder of an image lock has done to that image so far. */
  datatype Pending =
    | Settled                           // row and target both absent, or in agreement
    | Absent                            // neither row nor target
    | Fixed(row: Row)                   // exactly this row, in agreement
    | RowOnly(row: Row)                 // row inserted, target to come
    | TargetOnly(key: Uuid)             // row deleted, target still served
    | Repainting(to: Visibility)        // visibility set in the row, not yet in the target
    | Swapping(before: Row, after: Row) // new content in the row, old content served

  function PendingOf(job: Job): Pending {
    match job
    case Publish(d, p) =>
      if p.Filed? then Absent
      else if p.Inserted? then RowOnly(d.row)
      else if p.Listed? || p.Announced? then Fixed(d.row)
      else Settled
    case Remove(_, p) => if p.RowGone? then TargetOnly(p.key) else if p.TargetGone? then Absent else Settled
    case SetVisibility(_, to, p) => if p.RowSet? then Repainting(to) else Settled
    case Convert(_, p) =>
      (match p
       case ToConvert => Settled
       case SourceRead(r, _) => Fixed(r)
       case FileReady(c) => Fixed(c.before)
       case RowReplaced(c) => Swapping(c.before, c.after)
       case TargetReplaced(c) => Fixed(c.after)
       case GivenUp(c) => Fixed(c.before))
    case _ => Settled
  }

  function PendingAt(ws: Workers, l: LockTable, id: Uuid): Pending {
    if id in l.image && l.image[id] in ws then PendingOf(ws[l.image[id]].job) else Settled
  }

  predicate ImageOk(row: Option<Row>, target: Option<Target>, p: Pending) {
    match p
    case Settled => row.Some? == target.Some? && (row.Some? ==> Agrees(target.value, row.value))
    case Absent => row.None? && target.None?
    case Fixed(r) => row == Some(r) && target.Some? && Agrees(target.value, r)
    case RowOnly(r) => row == Some(r) && target.None?
    case TargetOnly(k) => row.None? && target.Some? && target.value.key == k
    case Repainting(v) =>
      row.Some? && target.Some? && row.value.visibility == v && Agrees(target.value.(visibility := v), row.value)
    case Swapping(before, after) => row == Some(after) && target.Some? && Agrees(target.value, before)
  }

  predicate ImageFine(s: State, id: Uuid) {
    ImageOk(Lookup(s.db.rows, id), Lookup(s.index.byID, id), PendingAt(s.workers, s.locks, id))
  }

  // ---------------------------------------------------------------- alias rows against the index

  /** What the holder of a path lock has done to that path so far. */
  datatype PathPending = Still | Storing(image: Uuid) | Hiding

  function PathPendingOf(job: Job): PathPending {
    match job
    case Publish(d, p) => if d.alias.Some? && (p.Inserted? || p.Listed?) then Storing(d.id) else Still
    case AddAlias(id, _, p) => if p.AliasStored? then Storing(id) else Still
    case DropAlias(_, p) => if p.AliasGone? then Hiding else Still
    case _ => Still
  }

  function PathPendingAt(ws: Workers, l: LockTable, p: Path): PathPending {
    if p in l.path && l.path[p] in ws then PathPendingOf(ws[l.path[p]].job) else Still
  }

  /** A served alias without a row must be stale: its image is just being deleted. */
  predicate AliasOk(row: Option<AliasRow>, shown: Option<Uuid>, stale: bool, p: PathPending) {
    match p
    case Still => if row.Some? then shown == Some(row.value.image) else shown.Some? ==> stale
    case Storing(id) => row.Some? && row.value.image == id && (shown.Some? ==> stale)
    case Hiding => row.None?
  }

  predicate Stale(s: State, p: Path) {
    p in s.index.aliases && PendingAt(s.workers, s.locks, s.index.aliases[p]).TargetOnly?
  }

  predicate AliasFine(s: State, p: Path) {
    AliasOk(Lookup(s.db.aliases, p), Lookup(s.index.aliases, p), Stale(s, p), PathPendingAt(s.workers, s.locks, p))
  }

  // ---------------------------------------------------------------- stores

  predicate Owns(past: History, key: Uuid, id: Uuid) {
    key in past.keys && past.keys[key].owner == id
  }

  /** Every row names an existing file of exactly the recorded size, issued for this image. */
  predicate RowFine(s: State, id: Uuid)
    requires id in s.db.rows
  {
    && id in s.past.born && Owns(s.past, s.db.rows[id].key, id)
    && Stored(s.disk.files, s.db.rows[id])
    && |s.db.rows[id].hash| == 32 && s.db.rows[id].created <= Unix(s.clock)
  }

  /** Every served target names an existing file, unless the daily cleaner removed it. */
  predicate TargetFine(s: State, id: Uuid)
    requires id in s.index.byID
  {
    var t := s.index.byID[id];
    && id in s.past.born && Owns(s.past, t.key, id)
    && (t.key in s.past.swept || (t.key in s.disk.files && s.disk.files[t.key].size == t.size))
  }

  predicate AliasRowFine(s: State, p: Path)
    requires p in s.db.aliases
  {
    var row := s.db.aliases[p];
    && row.image in s.db.rows
    && row.id in s.past.homes && s.past.homes[row.id] == p
  }

  ghost predicate RowsFine(s: State) {
    forall id :: id in s.db.rows ==> RowFine(s, id)
  }

  ghost predicate TargetsFine(s: State) {
    forall id :: id in s.index.byID ==> TargetFine(s, id)
  }

  ghost predicate AliasRowsFine(s: State) {
    forall p :: p in s.db.aliases ==> AliasRowFine(s, p)
  }

  /** Files and thumbnails carry the time recorded when their key was issued, or a later one. */
  predicate DiskFine(s: State) {
    && (forall k :: k in s.disk.files ==> k in s.past.keys && s.disk.files[k].written == s.past.keys[k].written)
    && (forall i :: i in s.disk.thumbs ==> i in s.past.keys && s.past.keys[i].written <= s.disk.thumbs[i])
  }

  predicate PastFine(s: State) {
    && (forall id :: id in s.past.born ==> Owns(s.past, id, id))
    && (forall k :: k in s.past.keys ==> s.past.keys[k].written <= s.clock)
    && s.past.publishers.Keys <= s.past.keys.Keys
  }

  ghost predicate StoresFine(s: State) {
    RowsFine(s) && TargetsFine(s) && AliasRowsFine(s) && DiskFine(s) && PastFine(s)
  }

  // ---------------------------------------------------------------- what each job may rely on

  /** The file a job wrote stays on disk until its commit is out of time. */
  predicate FileKept(s: State, key: Uuid, size: nat, written: Instant) {
    InTime(s, written) ==> key in s.disk.files && s.disk.files[key] == File(size, written)
  }

  predicate DraftFine(s: State, a: Actor, d: Draft, p: PublishPhase) {
    && d.id in s.past.publishers && s.past.publishers[d.id] == a
    && d.id in s.past.keys && s.past.keys[d.id] == KeyInfo(d.id, d.written)
    && d.row.key == d.id && |d.row.hash| == 32
    && d.row.created == Unix(d.at) && d.row.updated == Unix(d.at) && d.at <= s.clock
    && (d.alias.Some? ==>
          d.alias.value.id in s.past.homes && s.past.homes[d.alias.value.id] == d.alias.value.path)
    && (p.Staged? || p.Filed? || p.Abandoned? ==> d.id !in s.past.born)
    && (p.Staged? ==> d.id !in s.disk.files)
    && (p.Filed? ==> FileKept(s, d.id, d.row.size, d.written))
  }

  predicate ChangeFine(s: State, id: Uuid, c: Change) {
    && Owns(s.past, c.before.key, id) && Owns(s.past, c.after.key, id)
    && s.past.keys[c.after.key].written == c.written
    && c.after.key != c.before.key && |c.after.hash| == 32
    && c.after.created == c.before.created && c.after.visibility == c.before.visibility
    && c.after.updated == Unix(c.at) && c.before.created <= Unix(c.at) && c.at <= s.clock
    && id in s.past.keys && s.past.keys[id].written <= c.written
  }

  predicate ConvertFine(s: State, id: Uuid, p: ConvertPhase) {
    p.ToConvert? ||
    (&& id in s.past.born && id in s.past.keys
     && match p
        case ToConvert => true
        case SourceRead(r, since) => s.past.keys[id].written <= since <= s.clock
        case FileReady(c) => ChangeFine(s, id, c) && FileKept(s, c.after.key, c.after.size, c.written)
        case RowReplaced(c) => ChangeFine(s, id, c)
        case TargetReplaced(c) => ChangeFine(s, id, c)
        case GivenUp(c) => ChangeFine(s, id, c))
  }

  function AllTargets(rows: map<Uuid, Row>): map<Uuid, Target> {
    map id | id in rows :: Rebuilt(rows[id])
  }

  predicate RebuildFine(db: Database, b: RebuildPhase) {
    match b
    case ToBuild => true
    case Checking(todo, targets) =>
      && todo.Keys + targets.Keys == db.rows.Keys
      && (forall id :: id in todo ==> id in db.rows && todo[id] == db.rows[id])
      && (forall id :: id in targets ==> id in db.rows && targets[id] == Rebuilt(db.rows[id]))
    case Built(view) => view == View(AllTargets(db.rows), BuildAliases(db.aliases, AllTargets(db.rows)))
    case Swapped => true
  }

  /** No row names the file, and none ever will. */
  predicate Dead(s: State, key: Uuid) {
    key in s.past.keys && !InTime(s, s.past.keys[key].written) && KeyUnused(s.db.rows, key)
  }

  /** The image has no row, and never will. */
  predicate Buried(s: State, id: Uuid) {
    id in s.past.keys && !InTime(s, s.past.keys[id].written) && id !in s.db.rows
  }

  predicate Recent(s: State, key: Uuid, now: Instant) {
    key in s.past.keys && now < s.past.keys[key].written + SAFETY_AGE
  }

  predicate DailyFine(s: State, now: Instant, p: DailyPhase) {
    && now <= s.clock
    && match p
       case ToScan => true
       case RowsRead(keys, ids) =>
         forall id :: id in s.db.rows ==>
           && (s.db.rows[id].key in keys || Recent(s, s.db.rows[id].key, now))
           && (id in ids || Recent(s, id, now))
       case ImagesListed(doomed, ids) =>
         && (forall k :: k in doomed ==> Dead(s, k))
         && (forall id :: id in s.db.rows ==> id in ids || Recent(s, id, now))
       case FilesListed(doomed, thumbs) =>
         && (forall k :: k in doomed ==> Dead(s, k))
         && (forall i :: i in thumbs ==> Buried(s, i))
  }

  predicate WorkerFine(s: State, a: Actor, job: Job) {
    match job
    case Publish(d, p) => DraftFine(s, a, d, p)
    case Remove(id, p) => p.ToRemove? || (id in s.past.born && Owns(s.past, p.key, id))
    case SetVisibility(_, _, _) => true
    case Convert(id, p) => ConvertFine(s, id, p)
    case AddAlias(_, n, _) => n.id in s.past.homes && s.past.homes[n.id] == n.path
    case DropAlias(aid, p) => !p.ToFind? ==> aid in s.past.homes && s.past.homes[aid] == p.path
    case Rebuild(b) => RebuildFine(s.db, b)
    case Daily(now, p) => DailyFine(s, now, p)
  }

  /** Alias ids are only ever issued for canonical paths. */
  predicate HomesFine(homes: map<Uuid, Path>) {
    forall i :: i in homes ==> AliasPath.Canonical(homes[i])
  }

  lemma StoredIsCanonical(s: State, p: Path)
    requires p in s.db.aliases && AliasRowFine(s, p) && HomesFine(s.past.homes)
    ensures AliasPath.Canonical(p) && p != AliasPath.ROOT
  {
    AliasPath.CanonicalIsNotRoot(p);
  }

  /** No stored alias is the root path. */
  lemma NoRootStored(s: State)
    requires AliasRowsFine(s) && HomesFine(s.past.homes)
    ensures AliasPath.ROOT !in s.db.aliases
  {
    if AliasPath.ROOT in s.db.aliases { StoredIsCanonical(s, AliasPath.ROOT); }
  }

  ghost predicate Inv(s: State) {
    && Locking.Locked(s.workers, s.locks)
    && (forall id :: ImageFine(s, id))
    && (forall p :: AliasFine(s, p))
    && StoresFine(s) && HomesFine(s.past.homes)
    && (forall a :: a in s.workers ==> WorkerFine(s, a, s.workers[a].job))
  }
}
