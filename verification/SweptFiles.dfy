/** When the daily cleaner takes a served file away: the exact step, and the exact runs. */
module SweptFiles {
  import opened Base
  import opened Delivery
  import opened Loader
  import opened Protocol
  import opened Invariant
  import opened Agreement
  import opened Removals
  import Effects
  import opened Frames
  import Locking
  import RebuildSteps
  import Runs

  /** The image files a cleaner has marked for removal. */
  function DoomedBy(p: DailyPhase): set<Uuid> {
    if p.ImagesListed? || p.FilesListed? then p.doomed else {}
  }

  predicate SweptFine(s: State) {
    && (forall k :: k in s.past.swept ==> FileGone(s, k))
    && (forall a :: a in s.workers && s.workers[a].job.Daily? ==>
          forall k :: k in DoomedBy(s.workers[a].job.day) ==> NotStaged(s, k))
  }

  /** Whatever a cleaner has marked, it marked before, or has just found on disk. */
  lemma MarksAreOld(s: State, e: Event, a: Actor, k: Uuid)
    requires Enabled(s, e) && a in Apply(s, e).workers && Apply(s, e).workers[a].job.Daily?
    requires k in DoomedBy(Apply(s, e).workers[a].job.day)
    ensures (a in s.workers && s.workers[a].job.Daily? && k in DoomedBy(s.workers[a].job.day)) || k in s.disk.files
  {
    if IsStep(e) { assert Apply(s, e).workers == s.workers[e.a := Apply(s, e).workers[e.a]]; }
  }

  lemma SweptGrows(s: State, e: Event, k: Uuid)
    requires Enabled(s, e) && k in Apply(s, e).past.swept && k !in s.past.swept
    ensures e.OfDaily? && e.day == SweepFile(k) && k in DoomedBy(s.workers[e.a].job.day)
  {
  }

  lemma OnDiskIsNotStaged(s: State, k: Uuid)
    requires DiskFine(s) && k in s.disk.files
    requires forall b :: b in s.workers ==> WorkerFine(s, b, s.workers[b].job)
    ensures NotStaged(s, k)
  {
    forall b | b in s.workers ensures !Staging(s.workers[b].job, k) { assert WorkerFine(s, b, s.workers[b].job); }
  }

  lemma SweptFilesGone(s: State, e: Event, k: Uuid)
    requires SweptFine(s) && Enabled(s, e) && k in Apply(s, e).past.swept
    ensures FileGone(Apply(s, e), k)
  {
    if k in s.past.swept {
      FileGoneKept(s, e, k);
    } else {
      SweptGrows(s, e, k);
      NotStagedKept(s, e, k);
    }
  }

  lemma SweptKept(s: State, e: Event)
    requires Inv(s) && SweptFine(s) && Enabled(s, e)
    ensures SweptFine(Apply(s, e))
  {
    var t := Apply(s, e);
    forall k | k in t.past.swept ensures FileGone(t, k) { SweptFilesGone(s, e, k); }
    forall a, k | a in t.workers && t.workers[a].job.Daily? && k in DoomedBy(t.workers[a].job.day) ensures NotStaged(t, k) {
      MarksAreOld(s, e, a, k);
      if k in s.disk.files { OnDiskIsNotStaged(s, k); }
      NotStagedKept(s, e, k);
    }
  }

  lemma RunSwept(s: State, events: seq<Event>)
    requires Inv(s) && SweptFine(s) && Run(s, events).Some?
    ensures SweptFine(Run(s, events).value)
  {
    forall s, e | Inv(s) && SweptFine(s) && Next(s, e).Some? ensures Inv(Next(s, e).value) && SweptFine(Next(s, e).value) {
      StepKept(s, e);
      SweptKept(s, e);
    }
    Runs.InvariantHolds(Next, s => Inv(s) && SweptFine(s), s, events);
  }

  // ---------------------------------------------------------------- the step that loses a served file

  /** The image's row is deleted, or replaced away from this file, and its target not yet. */
  predicate Exposed(s: State, id: Uuid, k: Uuid) {
    var p := PendingAt(s.workers, s.locks, id);
    p == TargetOnly(k) || (p.Swapping? && p.before.key == k)
  }

  /** In terms of jobs: a deletion or a conversion of the image stands between its two writes. */
  predicate Exposes(job: Job, id: Uuid, k: Uuid) {
    job == Remove(id, RowGone(k)) || (job.Convert? && job.image == id && job.conv.RowReplaced? && job.conv.c.before.key == k)
  }

  lemma ExposedByJob(s: State, id: Uuid, k: Uuid)
    requires Locking.Locked(s.workers, s.locks)
    ensures Exposed(s, id, k) <==> exists a :: a in s.workers && Exposes(s.workers[a].job, id, k)
  {
    if a :| a in s.workers && Exposes(s.workers[a].job, id, k) {
      assert Locking.Registered(s.locks, a, s.workers[a]) && Locking.HoldsEnough(s.workers[a]);
      assert s.locks.image[id] == a;
    }
    if Exposed(s, id, k) { assert Exposes(s.workers[s.locks.image[id]].job, id, k); }
  }

  /** An exposed file is the one the target still names. */
  lemma ExposedIsServed(s: State, id: Uuid, k: Uuid)
    requires ImageFine(s, id) && Exposed(s, id, k)
    ensures id in s.index.byID && s.index.byID[id].key == k
  {
  }

  /** A served target lacks its file exactly when no file has its key any more. */
  lemma MissingMeansGone(s: State, id: Uuid)
    requires SweptFine(s) && id in s.index.byID && TargetFine(s, id)
    ensures ServedFileMissing(s, id) <==> s.index.byID[id].key !in s.disk.files
    ensures ServedFileMissing(s, id) <==> s.index.byID[id].key in s.past.swept
  {
  }

  lemma SweepLosesExposed(s: State, a: Actor, k: Uuid, id: Uuid)
    requires DailyEnabled(s, a, SweepFile(k)) && ImageFine(s, id) && Exposed(s, id, k)
    ensures ServedFileMissing(DailyStepped(s, a, SweepFile(k)), id)
  {
    ExposedIsServed(s, id, k);
  }

  /** No row names a file marked for removal, so whoever serves it must be exposed. */
  lemma SweepLosesOnlyExposed(s: State, a: Actor, k: Uuid, id: Uuid)
    requires DailyEnabled(s, a, SweepFile(k)) && ImageFine(s, id) && Dead(s, k)
    requires !ServedFileMissing(s, id) && ServedFileMissing(DailyStepped(s, a, SweepFile(k)), id)
    ensures Exposed(s, id, k)
  {
  }

  /** Sweeping a file takes it from a served target exactly when the target is exposed. */
  lemma SweepLosesExactly(s: State, a: Actor, k: Uuid, id: Uuid)
    requires Inv(s) && DailyEnabled(s, a, SweepFile(k))
    ensures var t := DailyStepped(s, a, SweepFile(k));
      ServedFileMissing(t, id) && !ServedFileMissing(s, id) <==> !ServedFileMissing(s, id) && Exposed(s, id, k)
  {
    assert ImageFine(s, id) && WorkerFine(s, a, s.workers[a].job);
    if Exposed(s, id, k) { SweepLosesExposed(s, a, k, id); }
    if !ServedFileMissing(s, id) && ServedFileMissing(DailyStepped(s, a, SweepFile(k)), id) { SweepLosesOnlyExposed(s, a, k, id); }
  }

  /** An agreeing row vouches for the file. */
  lemma RowVouches(s: State, id: Uuid)
    requires id in s.db.rows && RowFine(s, id) && id in s.index.byID
    requires s.index.byID[id].key == s.db.rows[id].key && s.index.byID[id].size == s.db.rows[id].size
    ensures !ServedFileMissing(s, id)
  {
  }

  /** Steps that put a target into the index. */
  predicate Serves(e: Event) {
    || e.Restart? || (e.OfPublish? && e.pub.ShowTarget?) || (e.OfConvert? && e.conv.ReplaceTarget?) || (e.OfRebuild? && e.reb.Swap?)
  }

  lemma OtherTargetsStay(s: State, e: Event, id: Uuid)
    requires Enabled(s, e) && !Serves(e)
    ensures var v, w := s.index.byID, Apply(s, e).index.byID;
      id in w ==> id in v && w[id].key == v[id].key && w[id].size == v[id].size
  {
  }

  lemma OnlyItsTargetServed(s: State, e: Event, id: Uuid)
    requires Enabled(s, e) && (e.OfPublish? || e.OfConvert?) && Serves(e)
    requires ImageOf(s.workers[e.a].job) != Some(id)
    ensures Lookup(Apply(s, e).index.byID, id) == Lookup(s.index.byID, id)
  {
  }

  lemma PublishedIsThere(s: State, a: Actor)
    requires Inv(s) && PublishEnabled(s, a, ShowTarget) && Inv(PublishStepped(s, a, ShowTarget))
    ensures !ServedFileMissing(PublishStepped(s, a, ShowTarget), s.workers[a].job.d.id)
  {
    Effects.PublishEffect(s, a);
    RowVouches(PublishStepped(s, a, ShowTarget), s.workers[a].job.d.id);
  }

  lemma ConvertedIsThere(s: State, a: Actor)
    requires Inv(s) && ConvertEnabled(s, a, ReplaceTarget) && Inv(ConvertStepped(s, a, ReplaceTarget))
    ensures !ServedFileMissing(ConvertStepped(s, a, ReplaceTarget), s.workers[a].job.image)
  {
    Effects.ConvertEffect(s, a);
    RowVouches(ConvertStepped(s, a, ReplaceTarget), s.workers[a].job.image);
  }

  lemma RebuiltIsThere(s: State, a: Actor, id: Uuid)
    requires Facts(s, a) && RebuildEnabled(s, a, Swap) && RowsFine(s)
    ensures !ServedFileMissing(RebuildStepped(s, a, Swap), id)
  {
    var t := RebuildStepped(s, a, Swap);
    RebuildSteps.SwapFacts(s, a);
    if id in t.index.byID { assert RowFine(s, id); }
  }

  lemma ReloadedIsThere(s: State, id: Uuid)
    ensures !ServedFileMissing(Restarted(s), id)
  {
  }

  /** A target just put into the index has its file. */
  lemma ServedIsThere(s: State, e: Event, id: Uuid)
    requires Inv(s) && Enabled(s, e) && Serves(e) && !ServedFileMissing(s, id)
    ensures !ServedFileMissing(Apply(s, e), id)
  {
    StepKept(s, e);
    if e.OfPublish? && s.workers[e.a].job.d.id == id { PublishedIsThere(s, e.a); }
    else if e.OfConvert? && s.workers[e.a].job.image == id { ConvertedIsThere(s, e.a); }
    else if e.OfRebuild? {
      FactsOf(s, e.a);
      RebuiltIsThere(s, e.a, id);
    } else if e.Restart? { ReloadedIsThere(s, id); }
    else { OnlyItsTargetServed(s, e, id); }
  }

  lemma FilesOnlySwept(s: State, e: Event, id: Uuid)
    requires Inv(s) && SweptFine(s) && Enabled(s, e) && !Serves(e) && !(e.OfDaily? && e.day.SweepFile?)
    requires !ServedFileMissing(s, id)
    ensures !ServedFileMissing(Apply(s, e), id)
  {
    var t := Apply(s, e);
    StepKept(s, e);
    SweptKept(s, e);
    if id in t.index.byID {
      OtherTargetsStay(s, e, id);
      assert TargetFine(s, id) && TargetFine(t, id);
      MissingMeansGone(s, id);
      MissingMeansGone(t, id);
      SweptUnchanged(s, e);
    }
  }

  lemma SweptUnchanged(s: State, e: Event)
    requires Enabled(s, e) && !(e.OfDaily? && e.day.SweepFile?)
    ensures Apply(s, e).past.swept == s.past.swept
  {
  }

  predicate Sweeps(e: Event, k: Uuid) { e.OfDaily? && e.day == SweepFile(k) }

  /** No other step of any job, no crash and no rebuild takes a served file away. */
  lemma LosesExactly(s: State, e: Event, id: Uuid)
    requires Inv(s) && SweptFine(s) && Enabled(s, e)
    ensures !ServedFileMissing(s, id) && ServedFileMissing(Apply(s, e), id) <==>
            exists k :: Sweeps(e, k) && k in s.disk.files && Exposed(s, id, k)
  {
    if e.OfDaily? && e.day.SweepFile? {
      var k := e.day.key;
      assert Sweeps(e, k);
      SweepLosesExactly(s, e.a, k, id);
      assert ImageFine(s, id);
      if Exposed(s, id, k) {
        ExposedIsServed(s, id, k);
        assert TargetFine(s, id);
        MissingMeansGone(s, id);
      }
    } else if !ServedFileMissing(s, id) {
      if Serves(e) { ServedIsThere(s, e, id); } else { FilesOnlySwept(s, e, id); }
    }
  }

  // ---------------------------------------------------------------- runs

  ghost predicate AllServed(s: State) { forall id :: !ServedFileMissing(s, id) }

  /** The cleaner removes a file that an image, deleted or replaced in the database, still serves. */
  ghost predicate Overtakes(s: State, e: Event) {
    e.OfDaily? && e.day.SweepFile? && e.day.key in s.disk.files && exists id :: Exposed(s, id, e.day.key)
  }

  ghost predicate AlwaysServed(s: State, events: seq<Event>)
    decreases |events|
  {
    AllServed(s) && (events != [] && Enabled(s, events[0]) ==> AlwaysServed(Apply(s, events[0]), events[1..]))
  }

  ghost predicate NeverOvertaken(s: State, events: seq<Event>)
    decreases |events|
  {
    events != [] && Enabled(s, events[0]) ==> !Overtakes(s, events[0]) && NeverOvertaken(Apply(s, events[0]), events[1..])
  }

  lemma StepServed(s: State, e: Event)
    requires Inv(s) && SweptFine(s) && AllServed(s) && Enabled(s, e)
    ensures AllServed(Apply(s, e)) <==> !Overtakes(s, e)
  {
    if Overtakes(s, e) {
      var id :| Exposed(s, id, e.day.key);
      assert Sweeps(e, e.day.key);
      LosesExactly(s, e, id);
      assert ServedFileMissing(Apply(s, e), id);
    } else {
      forall id ensures !ServedFileMissing(Apply(s, e), id) {
        assert !ServedFileMissing(s, id);
        LosesExactly(s, e, id);
      }
    }
  }

  lemma {:induction false} ServedUnlessOvertaken(s: State, events: seq<Event>)
    requires Inv(s) && SweptFine(s) && AllServed(s)
    ensures AlwaysServed(s, events) <==> NeverOvertaken(s, events)
    decreases |events|
  {
    if events != [] && Enabled(s, events[0]) {
      StepServed(s, events[0]);
      StepKept(s, events[0]);
      SweptKept(s, events[0]);
      if AllServed(Apply(s, events[0])) { ServedUnlessOvertaken(Apply(s, events[0]), events[1..]); }
    }
  }

  /** Throughout a run every served target names its file if and only if no sweep of the run overtakes a job. */
  lemma EveryRunServes(s0: State, events: seq<Event>)
    requires Initial(s0)
    ensures AlwaysServed(s0, events) <==> NeverOvertaken(s0, events)
  {
    InitialFine(s0);
    ServedUnlessOvertaken(s0, events);
  }

  /** In every reachable state a served target lacks its file if and only if the cleaner removed it. */
  lemma MissingExactlyIfSwept(s0: State, events: seq<Event>, id: Uuid)
    requires Initial(s0) && Run(s0, events).Some? && id in Run(s0, events).value.index.byID
    ensures var s := Run(s0, events).value; ServedFileMissing(s, id) <==> s.index.byID[id].key in s.past.swept
  {
    InitialFine(s0);
    RunKept(s0, events);
    RunSwept(s0, events);
    assert TargetFine(Run(s0, events).value, id);
  }

  /** So in a quiet state every served target names a file of its size, cleaner or not. */
  lemma QuietTargetsNameTheirFiles(s0: State, events: seq<Event>, id: Uuid)
    requires Initial(s0) && Run(s0, events).Some? && Quiet(Run(s0, events).value)
    ensures !ServedFileMissing(Run(s0, events).value, id)
  {
    InitialFine(s0);
    RunKept(s0, events);
    var s := Run(s0, events).value;
    if ServedFileMissing(s, id) { ServedFileMissingOnlyIfSwept(s, id); }
  }
}
