/**
 The three-store protocol: database rows, image files and the delivery index, changed by any
 number of concurrent jobs. Every event is one atomic step of one job: a lock, one repository
 call, one index call, or one file operation.
 */
module Protocol {
  import opened Base
  import opened Delivery
  import opened Loader
  import AliasPath
  import Runs

  type Actor = nat

  /** The daily cleaner runs with a safety age of 24 hours (internal/app/app.go:170). */
  const SAFETY_AGE: nat := 24 * 3600 * SECOND

  // ---------------------------------------------------------------- jobs

  datatype NewAlias = NewAlias(id: Uuid, path: Path)

  /** An upload (no alias) or an import (with one). `written` is when its file was written. */
  datatype Draft = Draft(id: Uuid, row: Row, at: Instant, alias: Option<NewAlias>, written: Instant)

  /** A finished conversion: the row it read, the row it will store, the file it wrote. */
  datatype Change = Change(before: Row, after: Row, at: Instant, written: Instant)

  datatype PublishPhase = Staged | Filed | Inserted | Listed | Announced | Abandoned
  datatype RemovePhase = ToRemove | RowGone(key: Uuid) | TargetGone(key: Uuid)
  datatype VisibilityPhase = ToSet | RowSet | TargetSet
  datatype ConvertPhase =
    | ToConvert
    | SourceRead(before: Row, since: Instant)
    | FileReady(c: Change)
    | RowReplaced(c: Change)
    | TargetReplaced(c: Change)
    | GivenUp(c: Change)
  datatype AddPhase = ToAdd | AliasStored | AliasShown
  datatype DropPhase = ToFind | Found(path: Path) | AliasGone(path: Path) | AliasHidden(path: Path)
  datatype RebuildPhase =
    | ToBuild
    | Checking(todo: map<Uuid, Row>, targets: map<Uuid, Target>)
    | Built(view: View)
    | Swapped
  datatype DailyPhase =
    | ToScan
    | RowsRead(keys: set<Uuid>, ids: set<Uuid>)
    | ImagesListed(doomed: set<Uuid>, ids: set<Uuid>)
    | FilesListed(doomed: set<Uuid>, doomedThumbs: set<Uuid>)

  datatype Job =
    | Publish(d: Draft, pub: PublishPhase)
    | Remove(image: Uuid, rem: RemovePhase)
    | SetVisibility(image: Uuid, to: Visibility, vis: VisibilityPhase)
    | Convert(image: Uuid, conv: ConvertPhase)
    | AddAlias(image: Uuid, alias: NewAlias, add: AddPhase)
    | DropAlias(aliasId: Uuid, drop: DropPhase)
    | Rebuild(build: RebuildPhase)
    | Daily(now: Instant, day: DailyPhase)

  datatype Held = Held(image: bool, path: bool, barrier: bool)

  const NoLocks := Held(false, false, false)

  datatype Worker = Worker(job: Job, held: Held)

  // ---------------------------------------------------------------- state

  type Workers = map<Actor, Worker>

  datatype LockTable = LockTable(image: map<Uuid, Actor>, path: map<Path, Actor>, readers: set<Actor>, writer: Option<Actor>)

  datatype Disk = Disk(files: map<Uuid, File>, thumbs: map<Uuid, Instant>)

  /** Whom a storage key was issued for, and when its file was written. */
  datatype KeyInfo = KeyInfo(owner: Uuid, written: Instant)

  /**
   History: the keys, images and alias ids ever issued, the images ever stored in a row (`born`),
   and the files the daily cleaner removed. No step reads it except to pick a fresh UUID.
   */
  datatype History = History(
    keys: map<Uuid, KeyInfo>, publishers: map<Uuid, Actor>, homes: map<Uuid, Path>, born: set<Uuid>, swept: set<Uuid>)

  datatype State = State(
    db: Database, disk: Disk, index: View, workers: Workers, locks: LockTable, clock: Instant, past: History)

  const FREE := LockTable(map[], map[], {}, None)

  predicate Has(s: State, a: Actor) { a in s.workers }

  function Goto(s: State, a: Actor, job: Job): Workers
    requires Has(s, a)
  {
    s.workers[a := s.workers[a].(job := job)]
  }

  // ---------------------------------------------------------------- locks

  function ImageOf(job: Job): Option<Uuid> {
    match job
    case Publish(d, _) => Some(d.id)
    case Remove(id, _) => Some(id)
    case SetVisibility(id, _, _) => Some(id)
    case Convert(id, _) => Some(id)
    case AddAlias(id, _, _) => Some(id)
    case _ => None
  }

  function PathOf(job: Job): Option<Path> {
    match job
    case Publish(d, _) => if d.alias.Some? then Some(d.alias.value.path) else None
    case AddAlias(_, n, _) => Some(n.path)
    case DropAlias(_, p) => if p.ToFind? then None else Some(p.path)
    case _ => None
  }

  /** The phase in which a job asks for its next lock. */
  predicate MayLock(w: Worker) {
    && !w.held.barrier
    && match w.job
       case Publish(_, p) => p.Filed?
       case Remove(_, p) => p.ToRemove?
       case SetVisibility(_, _, p) => p.ToSet?
       case Convert(_, p) => if w.held.image then p.FileReady? else p.ToConvert?
       case AddAlias(_, _, p) => p.ToAdd?
       case DropAlias(_, p) => p.Found?
       case Rebuild(p) => p.ToBuild?
       case Daily(_, _) => false
  }

  predicate WantsImage(w: Worker) { ImageOf(w.job).Some? && !w.held.image }

  predicate WantsPath(w: Worker) { PathOf(w.job).Some? && !w.held.path }

  /** Image lock first, then path lock, then the barrier, shared except for a rebuild. */
  predicate LockFree(l: LockTable, w: Worker) {
    if WantsImage(w) then ImageOf(w.job).value !in l.image
    else if WantsPath(w) then PathOf(w.job).value !in l.path
    else if w.job.Rebuild? then l.writer.None? && l.readers == {}
    else l.writer.None?
  }

  function Taken(w: Worker): Held {
    if WantsImage(w) then w.held.(image := true)
    else if WantsPath(w) then w.held.(path := true)
    else w.held.(barrier := true)
  }

  function Take(l: LockTable, a: Actor, w: Worker): LockTable {
    if WantsImage(w) then l.(image := l.image[ImageOf(w.job).value := a])
    else if WantsPath(w) then l.(path := l.path[PathOf(w.job).value := a])
    else if w.job.Rebuild? then l.(writer := Some(a))
    else l.(readers := l.readers + {a})
  }

  function LeaveBarrier(l: LockTable, a: Actor): LockTable {
    l.(readers := l.readers - {a}, writer := if l.writer == Some(a) then None else l.writer)
  }

  function Release(l: LockTable, a: Actor): LockTable {
    LeaveBarrier(l, a).(
      image := map id | id in l.image && l.image[id] != a :: l.image[id],
      path := map p | p in l.path && l.path[p] != a :: l.path[p])
  }

  // ---------------------------------------------------------------- steps of each kind of job

  /** A commit happens less than SAFETY_AGE after its file was written. */
  predicate InTime(s: State, written: Instant) { s.clock < written + SAFETY_AGE }

  /** storage_key is UNIQUE. */
  predicate KeyUnused(rows: map<Uuid, Row>, key: Uuid) {
    forall id :: id in rows ==> rows[id].key != key
  }

  datatype PublishStep = CommitFile | PutThumb(mtime: Instant) | InsertRows | ShowTarget | ShowAlias | Abandon | RemoveFile | RemoveThumb

  predicate PublishEnabled(s: State, a: Actor, step: PublishStep) {
    && Has(s, a) && s.workers[a].job.Publish?
    && var w := s.workers[a];
    var d, p := w.job.d, w.job.pub;
    match step
    case CommitFile => p.Staged? && d.id !in s.disk.files
    case PutThumb(m) => p.Filed? && !w.held.image && d.written <= m <= s.clock
    case InsertRows =>
      && p.Filed? && w.held.barrier && InTime(s, d.written)
      && d.id !in s.db.rows && KeyUnused(s.db.rows, d.id)
      && (d.alias.Some? ==> d.alias.value.path !in s.db.aliases)
    case ShowTarget => p.Inserted?
    case ShowAlias => p.Listed? && d.alias.Some?
    case Abandon => p.Filed?
    case RemoveFile => p.Abandoned?
    case RemoveThumb => p.Abandoned?
  }

  function PublishStepped(s: State, a: Actor, step: PublishStep): State
    requires PublishEnabled(s, a, step)
  {
    var d := s.workers[a].job.d;
    match step
    case CommitFile =>
      s.(workers := Goto(s, a, Publish(d, Filed)), disk := s.disk.(files := s.disk.files[d.id := File(d.row.size, d.written)]))
    case PutThumb(m) => s.(disk := s.disk.(thumbs := s.disk.thumbs[d.id := m]))
    case InsertRows =>
      s.(workers := Goto(s, a, Publish(d, Inserted)),
         db := Database(s.db.rows[d.id := d.row],
                        if d.alias.Some? then s.db.aliases[d.alias.value.path := AliasRow(d.alias.value.id, d.id)]
                        else s.db.aliases),
         past := s.past.(born := s.past.born + {d.id}))
    case ShowTarget => s.(workers := Goto(s, a, Publish(d, Listed)), index := s.index.Add(d.id, Published(d.row, d.at)))
    case ShowAlias => s.(workers := Goto(s, a, Publish(d, Announced)), index := s.index.AddAlias(d.alias.value.path, d.id))
    case Abandon =>
      s.(workers := s.workers[a := Worker(Publish(d, Abandoned), NoLocks)], locks := Release(s.locks, a))
    case RemoveFile => s.(disk := s.disk.(files := s.disk.files - {d.id}))
    case RemoveThumb => s.(disk := s.disk.(thumbs := s.disk.thumbs - {d.id}))
  }

  datatype RemoveStep = DeleteRow | HideTarget | LeaveShared | DeleteFile | DeleteThumb

  predicate RemoveEnabled(s: State, a: Actor, step: RemoveStep) {
    && Has(s, a) && s.workers[a].job.Remove?
    && var w := s.workers[a];
    match step
    case DeleteRow => w.job.rem.ToRemove? && w.held.barrier && w.job.image in s.db.rows
    case HideTarget => w.job.rem.RowGone?
    case LeaveShared => w.job.rem.TargetGone? && w.held.barrier
    case DeleteFile => w.job.rem.TargetGone? && !w.held.barrier
    case DeleteThumb => w.job.rem.TargetGone? && !w.held.barrier
  }

  function RemoveStepped(s: State, a: Actor, step: RemoveStep): State
    requires RemoveEnabled(s, a, step)
  {
    var w := s.workers[a];
    var id := w.job.image;
    match step
    case DeleteRow =>
      // Deleting an image row cascades to its alias rows; no path lock is held.
      s.(workers := Goto(s, a, Remove(id, RowGone(s.db.rows[id].key))),
         db := Database(s.db.rows - {id},
                        map p | p in s.db.aliases && s.db.aliases[p].image != id :: s.db.aliases[p]))
    case HideTarget => s.(workers := Goto(s, a, Remove(id, TargetGone(w.job.rem.key))), index := s.index.RemoveImage(id))
    case LeaveShared =>
      s.(workers := s.workers[a := w.(held := w.held.(barrier := false))], locks := LeaveBarrier(s.locks, a))
    case DeleteFile => s.(disk := s.disk.(files := s.disk.files - {w.job.rem.key}))
    case DeleteThumb => s.(disk := s.disk.(thumbs := s.disk.thumbs - {id}))
  }

  datatype VisibilityStep = UpdateRow | UpdateTarget

  predicate VisibilityEnabled(s: State, a: Actor, step: VisibilityStep) {
    && Has(s, a) && s.workers[a].job.SetVisibility?
    && var w := s.workers[a];
    match step
    case UpdateRow => w.job.vis.ToSet? && w.held.barrier && w.job.image in s.db.rows
    case UpdateTarget => w.job.vis.RowSet?
  }

  function VisibilityStepped(s: State, a: Actor, step: VisibilityStep): State
    requires VisibilityEnabled(s, a, step)
  {
    var SetVisibility(id, v, _) := s.workers[a].job;
    match step
    case UpdateRow =>
      s.(workers := Goto(s, a, SetVisibility(id, v, RowSet)),
         db := s.db.(rows := s.db.rows[id := s.db.rows[id].(visibility := v)]))
    case UpdateTarget =>
      s.(workers := Goto(s, a, SetVisibility(id, v, TargetSet)), index := s.index.UpdateVisibility(id, v))
  }

  datatype ConvertStep =
    | ReadRow
    | WriteFile(c: Change)
    | ReplaceRow
    | ReplaceTarget
    | LeaveSharedAfter
    | GiveUp
    | RemoveOldFile
    | RemoveNewFile
    | ReplaceThumb(mtime: Instant)
    | ForgetThumb

  predicate ConvertEnabled(s: State, a: Actor, step: ConvertStep) {
    && Has(s, a) && s.workers[a].job.Convert?
    && var w := s.workers[a];
    var p := w.job.conv;
    match step
    case ReadRow => p.ToConvert? && w.held.image && w.job.image in s.db.rows
    case WriteFile(c) =>
      && p.SourceRead? && c.before == p.before
      && c.after.key !in s.past.keys && |c.after.hash| == 32
      && c.at == s.clock && p.since <= c.written <= s.clock
      && c.after.created == c.before.created && c.after.updated == Unix(c.at)
      && c.after.visibility == c.before.visibility
    case ReplaceRow =>
      && p.FileReady? && w.held.barrier && InTime(s, p.c.written)
      && w.job.image in s.db.rows && KeyUnused(s.db.rows, p.c.after.key)
    case ReplaceTarget => p.RowReplaced?
    case LeaveSharedAfter => p.TargetReplaced? && w.held.barrier
    case GiveUp => p.FileReady?
    case RemoveOldFile => p.TargetReplaced? && !w.held.barrier
    case RemoveNewFile => p.GivenUp?
    case ReplaceThumb(m) => p.TargetReplaced? && p.c.written <= m <= s.clock
    case ForgetThumb => p.TargetReplaced?
  }

  function ConvertStepped(s: State, a: Actor, step: ConvertStep): State
    requires ConvertEnabled(s, a, step)
  {
    var w := s.workers[a];
    var Convert(id, p) := w.job;
    match step
    case ReadRow => s.(workers := Goto(s, a, Convert(id, SourceRead(s.db.rows[id], s.clock))))
    case WriteFile(c) =>
      s.(workers := Goto(s, a, Convert(id, FileReady(c))),
         disk := s.disk.(files := s.disk.files[c.after.key := File(c.after.size, c.written)]),
         past := s.past.(keys := s.past.keys[c.after.key := KeyInfo(id, c.written)]))
    case ReplaceRow =>
      // UpdateContent leaves created_at and visibility as they are in the row.
      s.(workers := Goto(s, a, Convert(id, RowReplaced(p.c))),
         db := s.db.(rows := s.db.rows[id :=
           p.c.after.(created := s.db.rows[id].created, visibility := s.db.rows[id].visibility)]))
    case ReplaceTarget =>
      s.(workers := Goto(s, a, Convert(id, TargetReplaced(p.c))), index := s.index.Add(id, Published(p.c.after, p.c.at)))
    case LeaveSharedAfter =>
      s.(workers := s.workers[a := w.(held := w.held.(barrier := false))], locks := LeaveBarrier(s.locks, a))
    case GiveUp =>
      s.(workers := s.workers[a := Worker(Convert(id, GivenUp(p.c)), w.held.(barrier := false))],
         locks := LeaveBarrier(s.locks, a))
    case RemoveOldFile => s.(disk := s.disk.(files := s.disk.files - {p.c.before.key}))
    case RemoveNewFile => s.(disk := s.disk.(files := s.disk.files - {p.c.after.key}))
    case ReplaceThumb(m) => s.(disk := s.disk.(thumbs := s.disk.thumbs[id := m]))
    case ForgetThumb => s.(disk := s.disk.(thumbs := s.disk.thumbs - {id}))
  }

  datatype AliasStep = StoreAlias | PublishAlias | FindAlias(path: Path) | DeleteAlias(path: Path) | HideAlias

  predicate AliasEnabled(s: State, a: Actor, step: AliasStep) {
    && Has(s, a)
    && var w := s.workers[a];
    match step
    case StoreAlias =>
      && w.job.AddAlias? && w.job.add.ToAdd? && w.held.barrier
      && w.job.image in s.db.rows && w.job.alias.path !in s.db.aliases
    case PublishAlias => w.job.AddAlias? && w.job.add.AliasStored?
    case FindAlias(p) =>
      w.job.DropAlias? && w.job.drop.ToFind? && p in s.db.aliases && s.db.aliases[p].id == w.job.aliasId
    case DeleteAlias(p) =>
      w.job.DropAlias? && w.job.drop.Found? && w.held.barrier && p in s.db.aliases && s.db.aliases[p].id == w.job.aliasId
    case HideAlias => w.job.DropAlias? && w.job.drop.AliasGone?
  }

  function AliasStepped(s: State, a: Actor, step: AliasStep): State
    requires AliasEnabled(s, a, step)
  {
    var j := s.workers[a].job;
    match step
    case StoreAlias =>
      s.(workers := Goto(s, a, AddAlias(j.image, j.alias, AliasStored)),
         db := s.db.(aliases := s.db.aliases[j.alias.path := AliasRow(j.alias.id, j.image)]))
    case PublishAlias =>
      s.(workers := Goto(s, a, AddAlias(j.image, j.alias, AliasShown)), index := s.index.AddAlias(j.alias.path, j.image))
    case FindAlias(p) => s.(workers := Goto(s, a, DropAlias(j.aliasId, Found(p))))
    case DeleteAlias(p) =>
      s.(workers := Goto(s, a, DropAlias(j.aliasId, AliasGone(p))), db := s.db.(aliases := s.db.aliases - {p}))
    case HideAlias =>
      s.(workers := Goto(s, a, DropAlias(j.aliasId, AliasHidden(j.drop.path))), index := s.index.RemoveAlias(j.drop.path))
  }

  /** A rebuild reads the rows, checks one file at a time, reads the aliases, and swaps the index. */
  datatype RebuildStep = ReadRows | CheckFile(id: Uuid) | ReadAliases | Swap

  predicate RebuildEnabled(s: State, a: Actor, step: RebuildStep) {
    && Has(s, a) && s.workers[a].job.Rebuild?
    && var w := s.workers[a];
    var b := w.job.build;
    match step
    case ReadRows => b.ToBuild? && w.held.barrier
    case CheckFile(id) => b.Checking? && id in b.todo
    case ReadAliases => b.Checking? && b.todo == map[]
    case Swap => b.Built?
  }

  function RebuildStepped(s: State, a: Actor, step: RebuildStep): State
    requires RebuildEnabled(s, a, step)
  {
    var b := s.workers[a].job.build;
    match step
    case ReadRows => s.(workers := Goto(s, a, Rebuild(Checking(s.db.rows, map[]))))
    case CheckFile(id) =>
      s.(workers := Goto(s, a, Rebuild(Checking(b.todo - {id},
        if Stored(s.disk.files, b.todo[id]) then b.targets[id := Rebuilt(b.todo[id])] else b.targets))))
    case ReadAliases => s.(workers := Goto(s, a, Rebuild(Built(View(b.targets, BuildAliases(s.db.aliases, b.targets))))))
    case Swap => s.(workers := Goto(s, a, Rebuild(Swapped)), index := b.view)
  }

  /** The daily cleaner takes no lock: it reads the rows, lists one directory after the other, then removes. */
  datatype DailyStep = ScanRows | ListImages | ListThumbs | SweepFile(key: Uuid) | SweepThumb(id: Uuid)

  function OldFiles(disk: Disk, keys: set<Uuid>, now: Instant): set<Uuid> {
    set k | k in disk.files && k !in keys && disk.files[k].written + SAFETY_AGE <= now
  }

  function OldThumbs(disk: Disk, ids: set<Uuid>, now: Instant): set<Uuid> {
    set i | i in disk.thumbs && i !in ids && disk.thumbs[i] + SAFETY_AGE <= now
  }

  predicate DailyEnabled(s: State, a: Actor, step: DailyStep) {
    && Has(s, a) && s.workers[a].job.Daily?
    && var p := s.workers[a].job.day;
    match step
    case ScanRows => p.ToScan?
    case ListImages => p.RowsRead?
    case ListThumbs => p.ImagesListed?
    case SweepFile(k) => p.FilesListed? && k in p.doomed
    case SweepThumb(id) => p.FilesListed? && id in p.doomedThumbs
  }

  function DailyStepped(s: State, a: Actor, step: DailyStep): State
    requires DailyEnabled(s, a, step)
  {
    var Daily(now, p) := s.workers[a].job;
    match step
    case ScanRows =>
      s.(workers := Goto(s, a, Daily(now, RowsRead(StorageKeys(s.db.rows), s.db.rows.Keys))))
    case ListImages =>
      s.(workers := Goto(s, a, Daily(now, ImagesListed(OldFiles(s.disk, p.keys, now), p.ids))))
    case ListThumbs =>
      s.(workers := Goto(s, a, Daily(now, FilesListed(p.doomed, OldThumbs(s.disk, p.ids, now)))))
    case SweepFile(k) =>
      s.(disk := s.disk.(files := s.disk.files - {k}), past := s.past.(swept := s.past.swept + {k}))
    case SweepThumb(id) => s.(disk := s.disk.(thumbs := s.disk.thumbs - {id}))
  }

  // ---------------------------------------------------------------- beginning and ending a job

  /** A request begins with any job in its first phase, with fresh UUIDs for what it will create. */
  predicate MayStart(s: State, job: Job) {
    match job
    case Publish(d, p) =>
      && p.Staged?
      && d.id !in s.past.keys && d.row.key == d.id && |d.row.hash| == 32
      && d.at <= s.clock && d.written <= s.clock
      && d.row.created == Unix(d.at) && d.row.updated == Unix(d.at)
      && (d.alias.Some? ==> d.alias.value.id !in s.past.homes && AliasPath.Canonical(d.alias.value.path))
    case Remove(_, p) => p.ToRemove?
    case SetVisibility(_, _, p) => p.ToSet?
    case Convert(_, p) => p.ToConvert?
    case AddAlias(_, n, p) => p.ToAdd? && n.id !in s.past.homes && AliasPath.Canonical(n.path)
    case DropAlias(_, p) => p.ToFind?
    case Rebuild(p) => p.ToBuild?
    case Daily(now, p) => p.ToScan? && now <= s.clock
  }

  function Issued(past: History, a: Actor, job: Job): History {
    match job
    case Publish(d, _) =>
      past.(keys := past.keys[d.id := KeyInfo(d.id, d.written)],
            publishers := past.publishers[d.id := a],
            homes := if d.alias.Some? then past.homes[d.alias.value.id := d.alias.value.path] else past.homes)
    case AddAlias(_, n, _) => past.(homes := past.homes[n.id := n.path])
    case _ => past
  }

  /** Between a row write and the index write that follows it. Nothing can fail there. */
  predicate Midway(job: Job) {
    match job
    case Publish(d, p) => p.Inserted? || (p.Listed? && d.alias.Some?)
    case Remove(_, p) => p.RowGone?
    case SetVisibility(_, _, p) => p.RowSet?
    case Convert(_, p) => p.RowReplaced?
    case AddAlias(_, _, p) => p.AliasStored?
    case DropAlias(_, p) => p.AliasGone?
    case _ => false
  }

  // ---------------------------------------------------------------- events

  datatype Event =
    | Tick(dt: nat)
    | Restart                          // crash at any point, then a start that loads the index
    | Start(a: Actor, job: Job)
    | Lock(a: Actor)
    | Finish(a: Actor)                 // return, with success or with an error
    | OfPublish(a: Actor, pub: PublishStep)
    | OfRemove(a: Actor, rem: RemoveStep)
    | OfVisibility(a: Actor, vis: VisibilityStep)
    | OfConvert(a: Actor, conv: ConvertStep)
    | OfAlias(a: Actor, ali: AliasStep)
    | OfRebuild(a: Actor, reb: RebuildStep)
    | OfDaily(a: Actor, day: DailyStep)

  predicate Enabled(s: State, e: Event) {
    match e
    case Tick(_) => true
    case Restart => true
    case Start(a, job) => !Has(s, a) && MayStart(s, job)
    case Lock(a) => Has(s, a) && MayLock(s.workers[a]) && LockFree(s.locks, s.workers[a])
    case Finish(a) => Has(s, a) && !Midway(s.workers[a].job)
    case OfPublish(a, step) => PublishEnabled(s, a, step)
    case OfRemove(a, step) => RemoveEnabled(s, a, step)
    case OfVisibility(a, step) => VisibilityEnabled(s, a, step)
    case OfConvert(a, step) => ConvertEnabled(s, a, step)
    case OfAlias(a, step) => AliasEnabled(s, a, step)
    case OfRebuild(a, step) => RebuildEnabled(s, a, step)
    case OfDaily(a, step) => DailyEnabled(s, a, step)
  }

  function Restarted(s: State): State {
    s.(workers := map[], locks := FREE, index := BuildView(s.db, s.disk.files))
  }

  function Started(s: State, a: Actor, job: Job): State {
    s.(workers := s.workers[a := Worker(job, NoLocks)], past := Issued(s.past, a, job))
  }

  function Locked(s: State, a: Actor): State
    requires Has(s, a)
  {
    var w := s.workers[a];
    s.(workers := s.workers[a := w.(held := Taken(w))], locks := Take(s.locks, a, w))
  }

  function Finished(s: State, a: Actor): State {
    s.(workers := s.workers - {a}, locks := Release(s.locks, a))
  }

  function Apply(s: State, e: Event): State
    requires Enabled(s, e)
  {
    match e
    case Tick(dt) => s.(clock := s.clock + dt)
    case Restart => Restarted(s)
    case Start(a, job) => Started(s, a, job)
    case Lock(a) => Locked(s, a)
    case Finish(a) => Finished(s, a)
    case OfPublish(a, step) => PublishStepped(s, a, step)
    case OfRemove(a, step) => RemoveStepped(s, a, step)
    case OfVisibility(a, step) => VisibilityStepped(s, a, step)
    case OfConvert(a, step) => ConvertStepped(s, a, step)
    case OfAlias(a, step) => AliasStepped(s, a, step)
    case OfRebuild(a, step) => RebuildStepped(s, a, step)
    case OfDaily(a, step) => DailyStepped(s, a, step)
  }

  /** An empty store just after a start. */
  predicate Initial(s: State) {
    && s.db == Database(map[], map[]) && s.disk == Disk(map[], map[]) && s.index == View(map[], map[])
    && s.workers == map[] && s.locks == FREE && s.past == History(map[], map[], map[], {}, {})
  }

  /** The state after a sequence of events; None when some event was not possible. */
  function Next(s: State, e: Event): Option<State> { if Enabled(s, e) then Some(Apply(s, e)) else None }

  function Run(s: State, events: seq<Event>): Option<State> { Runs.Run(Next, s, events) }
}
