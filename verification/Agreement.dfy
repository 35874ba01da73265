/**
 What the three-store protocol guarantees in every reachable state: the index agrees with the
 rows, rows name their files, and the daily cleaner only removes what nobody will ever need.
 */
module Agreement {
  import opened Base
  import opened Delivery
  import opened Loader
  import opened Protocol
  import opened Invariant
  import AliasPath
  import Runs
  import Frames
  import PublishSteps
  import RemoveSteps
  import VisibilitySteps
  import ConvertSteps
  import AliasSteps
  import RebuildSteps
  import DailySteps
  import Lifecycle

  // ---------------------------------------------------------------- the invariant holds in every run

  lemma InitialFine(s: State)
    requires Initial(s)
    ensures Inv(s)
  {
  }

  lemma PublishKept(s: State, a: Actor, step: PublishStep)
    requires Inv(s) && PublishEnabled(s, a, step)
    ensures Inv(PublishStepped(s, a, step))
  {
    if step.Abandon? { PublishSteps.AbandonKept(s, a); } else { PublishSteps.Kept(s, a, step); }
  }

  lemma RemoveKept(s: State, a: Actor, step: RemoveStep)
    requires Inv(s) && RemoveEnabled(s, a, step)
    ensures Inv(RemoveStepped(s, a, step))
  {
    if step.LeaveShared? { RemoveSteps.LeaveKept(s, a); }
    else if step.DeleteFile? || step.DeleteThumb? { RemoveSteps.Kept(s, a, step); }
    else { RemoveSteps.IndexKept(s, a, step); }
  }

  lemma ConvertKept(s: State, a: Actor, step: ConvertStep)
    requires Inv(s) && ConvertEnabled(s, a, step)
    ensures Inv(ConvertStepped(s, a, step))
  {
    if step.GiveUp? || step.LeaveSharedAfter? { ConvertSteps.LeaveKept(s, a, step); } else { ConvertSteps.Kept(s, a, step); }
  }

  lemma RebuildKept(s: State, a: Actor, step: RebuildStep)
    requires Inv(s) && RebuildEnabled(s, a, step)
    ensures Inv(RebuildStepped(s, a, step))
  {
    if step.Swap? { RebuildSteps.SwapKept(s, a); } else { RebuildSteps.Kept(s, a, step); }
  }

  lemma StepKept(s: State, e: Event)
    requires Inv(s) && Enabled(s, e)
    ensures Inv(Apply(s, e))
  {
    match e
    case Tick(dt) => Lifecycle.TickKept(s, dt);
    case Restart => Lifecycle.RestartKept(s);
    case Start(a, job) => Lifecycle.StartKept(s, a, job);
    case Lock(a) => Lifecycle.LockKept(s, a);
    case Finish(a) => Lifecycle.FinishKept(s, a);
    case OfPublish(a, step) => PublishKept(s, a, step);
    case OfRemove(a, step) => RemoveKept(s, a, step);
    case OfVisibility(a, step) => VisibilitySteps.Kept(s, a, step);
    case OfConvert(a, step) => ConvertKept(s, a, step);
    case OfAlias(a, step) => AliasSteps.Kept(s, a, step);
    case OfRebuild(a, step) => RebuildKept(s, a, step);
    case OfDaily(a, step) => DailySteps.Kept(s, a, step);
  }

  lemma RunKept(s: State, events: seq<Event>)
    requires Inv(s) && Run(s, events).Some?
    ensures Inv(Run(s, events).value)
  {
    forall s, e | Inv(s) && Next(s, e).Some? ensures Inv(Next(s, e).value) {
      StepKept(s, e);
    }
    Runs.InvariantHolds(Next, s => Inv(s), s, events);
  }

  // ---------------------------------------------------------------- the index agrees with a rebuild

  /** No job stands between its row write and its index write. */
  predicate Quiet(s: State) {
    forall a :: a in s.workers ==> !Midway(s.workers[a].job)
  }

  predicate ImageQuiet(s: State, id: Uuid) {
    id in s.locks.image && s.locks.image[id] in s.workers ==> !Midway(s.workers[s.locks.image[id]].job)
  }

  /** Image by image: unless its lock holder is midway, a served image is what a rebuild would serve. */
  lemma ImageAgrees(s: State, id: Uuid)
    requires Inv(s) && ImageQuiet(s, id)
    ensures Lookup(ViewInSeconds(s.index).byID, id) == Lookup(BuildView(s.db, s.disk.files).byID, id)
  {
    assert ImageFine(s, id);
    if id in s.db.rows {
      assert RowFine(s, id);
      AgreesInSeconds(s.index.byID[id], s.db.rows[id]);
    }
  }

  /** Path by path: with nothing pending on it, an alias is served exactly when it is stored. */
  lemma AliasAgrees(s: State, p: Path)
    requires AliasFine(s, p) && PathPendingAt(s.workers, s.locks, p).Still? && !Stale(s, p)
    ensures Lookup(s.index.aliases, p) == if p in s.db.aliases then Some(s.db.aliases[p].image) else None
  {
  }

  lemma QuietPath(s: State, p: Path)
    requires Quiet(s)
    ensures PathPendingAt(s.workers, s.locks, p).Still? && !Stale(s, p)
  {
  }

  lemma BuiltAlias(s: State, p: Path)
    requires StoresFine(s) && AliasPath.ROOT !in s.db.aliases
    ensures Lookup(BuildView(s.db, s.disk.files).aliases, p) == if p in s.db.aliases then Some(s.db.aliases[p].image) else None
  {
    if p in s.db.aliases {
      assert AliasRowFine(s, p);
      assert RowFine(s, s.db.aliases[p].image);
    }
  }

  /** Whenever no job is midway, rebuilding the index from rows and files changes nothing. */
  lemma QuietIndexEqualsRebuild(s: State)
    requires Inv(s) && Quiet(s)
    ensures ViewInSeconds(s.index) == BuildView(s.db, s.disk.files)
  {
    var v, w := ViewInSeconds(s.index), BuildView(s.db, s.disk.files);
    forall id: Uuid ensures Lookup(v.byID, id) == Lookup(w.byID, id) { ImageAgrees(s, id); }
    MapsEqual(v.byID, w.byID);
    NoRootStored(s);
    forall p ensures Lookup(v.aliases, p) == Lookup(w.aliases, p) {
      assert AliasFine(s, p);
      QuietPath(s, p);
      AliasAgrees(s, p);
      BuiltAlias(s, p);
    }
    MapsEqual(v.aliases, w.aliases);
  }

  lemma MapsEqual<K(!new), V>(m: map<K, V>, n: map<K, V>)
    requires forall k :: Lookup(m, k) == Lookup(n, k)
    ensures m == n
  {
    forall k ensures k in m <==> k in n { assert Lookup(m, k) == Lookup(n, k); }
    forall k | k in m ensures m[k] == n[k] { assert Lookup(m, k) == Lookup(n, k); }
  }

  /** The same, for every run of any number of jobs, crashes and rebuilds included. */
  lemma EveryQuietStateAgrees(s0: State, events: seq<Event>)
    requires Initial(s0) && Run(s0, events).Some?
    ensures var s := Run(s0, events).value; Quiet(s) ==> ViewInSeconds(s.index) == BuildView(s.db, s.disk.files)
  {
    InitialFine(s0);
    RunKept(s0, events);
    var s := Run(s0, events).value;
    if Quiet(s) { QuietIndexEqualsRebuild(s); }
  }

  /** An alias that is stored, on a path nobody is changing, is served as the image it names. */
  lemma StoredAliasIsServed(s: State, p: Path)
    requires AliasFine(s, p) && p in s.db.aliases && AliasRowFine(s, p)
    requires ImageFine(s, s.db.aliases[p].image) && ImageQuiet(s, s.db.aliases[p].image)
    requires PathPendingAt(s.workers, s.locks, p).Still?
    ensures s.index.GetAlias(p).Some? && Agrees(s.index.GetAlias(p).value, s.db.rows[s.db.aliases[p].image])
  {
  }

  lemma QuietAliasResolves(s: State, p: Path)
    requires Inv(s) && Quiet(s)
    ensures s.index.GetAlias(p).Some? <==> p in s.db.aliases
    ensures p in s.db.aliases ==>
      s.db.aliases[p].image in s.db.rows && Agrees(s.index.GetAlias(p).value, s.db.rows[s.db.aliases[p].image])
  {
    assert AliasFine(s, p);
    QuietPath(s, p);
    AliasAgrees(s, p);
    if p in s.db.aliases {
      var id := s.db.aliases[p].image;
      assert AliasRowFine(s, p) && ImageFine(s, id);
      StoredAliasIsServed(s, p);
    }
  }

  /** In every quiet state of every run a path resolves exactly when it is stored, to what its image's row says. */
  lemma EveryAliasResolves(s0: State, events: seq<Event>, p: Path)
    requires Initial(s0) && Run(s0, events).Some? && Quiet(Run(s0, events).value)
    ensures var s := Run(s0, events).value;
      && (s.index.GetAlias(p).Some? <==> p in s.db.aliases)
      && (p in s.db.aliases ==>
            s.db.aliases[p].image in s.db.rows && Agrees(s.index.GetAlias(p).value, s.db.rows[s.db.aliases[p].image]))
  {
    InitialFine(s0);
    RunKept(s0, events);
    QuietAliasResolves(Run(s0, events).value, p);
  }

  /** In every reachable state a load meets nothing it would refuse: Build returns Ok. */
  lemma EveryLoadSucceeds(s0: State, events: seq<Event>)
    requires Initial(s0) && Run(s0, events).Some?
    ensures var s := Run(s0, events).value; HashesOk(s.db.rows) && AliasesOk(s.db)
  {
    InitialFine(s0);
    RunKept(s0, events);
    var s := Run(s0, events).value;
    forall id | id in s.db.rows ensures |s.db.rows[id].hash| == 32 { assert RowFine(s, id); }
    forall p | p in s.db.aliases ensures AliasPath.Canonical(p) && s.db.aliases[p].image in s.db.rows {
      assert AliasRowFine(s, p);
      StoredIsCanonical(s, p);
    }
  }

  // ---------------------------------------------------------------- rows and files

  /** In every reachable state every row names an existing file of its size, and no two rows share one. */
  lemma RowsNameTheirFiles(s0: State, events: seq<Event>)
    requires Initial(s0) && Run(s0, events).Some?
    ensures var s := Run(s0, events).value;
      && (forall id :: id in s.db.rows ==> Stored(s.disk.files, s.db.rows[id]))
      && (forall id, other :: id in s.db.rows && other in s.db.rows && s.db.rows[id].key == s.db.rows[other].key ==> id == other)
  {
    InitialFine(s0);
    RunKept(s0, events);
    var s := Run(s0, events).value;
    forall id | id in s.db.rows ensures Stored(s.disk.files, s.db.rows[id]) && Owns(s.past, s.db.rows[id].key, id) {
      assert RowFine(s, id);
    }
  }

  predicate ServedFileMissing(s: State, id: Uuid) {
    id in s.index.byID && !(s.index.byID[id].key in s.disk.files && s.disk.files[s.index.byID[id].key].size == s.index.byID[id].size)
  }

  /**
   A served target lacks its file exactly when the daily cleaner removed it, which can only be
   while the image's row is already deleted or replaced and its index entry is not yet.
   */
  lemma ServedFileMissingOnlyIfSwept(s: State, id: Uuid)
    requires Inv(s) && ServedFileMissing(s, id)
    ensures s.index.byID[id].key in s.past.swept
    ensures var p := PendingAt(s.workers, s.locks, id); p.TargetOnly? || p.Swapping?
  {
    assert TargetFine(s, id) && ImageFine(s, id);
    if id in s.db.rows { assert RowFine(s, id); }
  }

  lemma {:induction false} SweptNothing(s: State, events: seq<Event>)
    requires Run(s, events).Some?
    requires forall i :: 0 <= i < |events| ==> !events[i].OfDaily?
    ensures Run(s, events).value.past.swept == s.past.swept
    decreases |events|
  {
    if events != [] {
      assert !events[0].OfDaily?;
      SweptNothing(Apply(s, events[0]), events[1..]);
    }
  }

  /** Without the daily cleaner every served target names an existing file of its size. */
  lemma TargetsNameTheirFiles(s0: State, events: seq<Event>)
    requires Initial(s0) && Run(s0, events).Some?
    requires forall i :: 0 <= i < |events| ==> !events[i].OfDaily?
    ensures var s := Run(s0, events).value; forall id :: !ServedFileMissing(s, id)
  {
    InitialFine(s0);
    RunKept(s0, events);
    SweptNothing(s0, events);
    var s := Run(s0, events).value;
    forall id | id in s.index.byID ensures !ServedFileMissing(s, id) { assert TargetFine(s, id); }
  }

  // ---------------------------------------------------------------- the daily cleaner

  lemma DoomedByRemove(s: State, a: Actor, step: RemoveStep, k: Uuid)
    requires RemoveEnabled(s, a, step)
    ensures Dead(s, k) ==> Dead(RemoveStepped(s, a, step), k)
    ensures Buried(s, k) ==> Buried(RemoveStepped(s, a, step), k)
  {
  }

  lemma DoomedByVisibility(s: State, a: Actor, step: VisibilityStep, k: Uuid)
    requires VisibilityEnabled(s, a, step)
    ensures Dead(s, k) ==> Dead(VisibilityStepped(s, a, step), k)
    ensures Buried(s, k) ==> Buried(VisibilityStepped(s, a, step), k)
  {
  }

  lemma DoomedByOthers(s: State, e: Event, k: Uuid)
    requires Enabled(s, e) && !e.OfPublish? && !e.OfConvert? && !e.OfRemove? && !e.OfVisibility?
    ensures Dead(s, k) ==> Dead(Apply(s, e), k)
    ensures Buried(s, k) ==> Buried(Apply(s, e), k)
  {
  }

  lemma DoomedByPublish(s: State, a: Actor, step: PublishStep, k: Uuid)
    requires Frames.Facts(s, a) && PublishEnabled(s, a, step)
    ensures Dead(s, k) ==> Dead(PublishStepped(s, a, step), k)
    ensures Buried(s, k) ==> Buried(PublishStepped(s, a, step), k)
  {
  }

  lemma DoomedByConvert(s: State, a: Actor, step: ConvertStep, k: Uuid)
    requires Frames.Facts(s, a) && ConvertEnabled(s, a, step)
    ensures Dead(s, k) ==> Dead(ConvertStepped(s, a, step), k)
    ensures Buried(s, k) ==> Buried(ConvertStepped(s, a, step), k)
  {
  }

  /** A file out of time that no row names stays that way, whatever happens. */
  lemma DoomedKept(s: State, e: Event, k: Uuid)
    requires Inv(s) && Enabled(s, e)
    ensures Dead(s, k) ==> Dead(Apply(s, e), k)
    ensures Buried(s, k) ==> Buried(Apply(s, e), k)
  {
    if e.OfPublish? {
      Frames.FactsOf(s, e.a);
      DoomedByPublish(s, e.a, e.pub, k);
    } else if e.OfConvert? {
      Frames.FactsOf(s, e.a);
      DoomedByConvert(s, e.a, e.conv, k);
    } else if e.OfRemove? {
      DoomedByRemove(s, e.a, e.rem, k);
    } else if e.OfVisibility? {
      DoomedByVisibility(s, e.a, e.vis, k);
    } else {
      DoomedByOthers(s, e, k);
    }
  }

  lemma DeadForever(s: State, events: seq<Event>, k: Uuid)
    requires Inv(s) && Run(s, events).Some? && Dead(s, k)
    ensures KeyUnused(Run(s, events).value.db.rows, k)
  {
    forall s, e | Inv(s) && Dead(s, k) && Next(s, e).Some? ensures Inv(Next(s, e).value) && Dead(Next(s, e).value, k) {
      StepKept(s, e);
      DoomedKept(s, e, k);
    }
    Runs.InvariantHolds(Next, s => Inv(s) && Dead(s, k), s, events);
  }

  lemma BuriedForever(s: State, events: seq<Event>, id: Uuid)
    requires Inv(s) && Run(s, events).Some? && Buried(s, id)
    ensures id !in Run(s, events).value.db.rows
  {
    forall s, e | Inv(s) && Buried(s, id) && Next(s, e).Some? ensures Inv(Next(s, e).value) && Buried(Next(s, e).value, id) {
      StepKept(s, e);
      DoomedKept(s, e, id);
    }
    Runs.InvariantHolds(Next, s => Inv(s) && Buried(s, id), s, events);
  }

  /** A file the daily cleaner removes is named by no row, now or in any continuation. */
  lemma SweptFileIsNeverNeeded(s: State, a: Actor, k: Uuid, later: seq<Event>)
    requires Inv(s) && DailyEnabled(s, a, SweepFile(k))
    requires Run(s, [OfDaily(a, SweepFile(k))] + later).Some?
    ensures KeyUnused(s.db.rows, k)
    ensures KeyUnused(Run(s, [OfDaily(a, SweepFile(k))] + later).value.db.rows, k)
  {
    assert WorkerFine(s, a, s.workers[a].job);
    DeadForever(s, [OfDaily(a, SweepFile(k))] + later, k);
  }

  /** A thumbnail the daily cleaner removes belongs to no image row, now or in any continuation. */
  lemma SweptThumbIsNeverNeeded(s: State, a: Actor, id: Uuid, later: seq<Event>)
    requires Inv(s) && DailyEnabled(s, a, SweepThumb(id))
    requires Run(s, [OfDaily(a, SweepThumb(id))] + later).Some?
    ensures id !in s.db.rows
    ensures id !in Run(s, [OfDaily(a, SweepThumb(id))] + later).value.db.rows
  {
    assert WorkerFine(s, a, s.workers[a].job);
    BuriedForever(s, [OfDaily(a, SweepThumb(id))] + later, id);
  }
}
