/** Removed files and thumbnails stay removed, in every continuation. */
module Removals {
  import opened Base
  import opened Delivery
  import opened Loader
  import opened Protocol
  import opened Invariant
  import opened Frames
  import Locking
  import Runs

  // ---------------------------------------------------------------- files

  predicate Staging(job: Job, k: Uuid) { job.Publish? && job.pub.Staged? && job.d.id == k }

  /** Nobody is about to write this file for the first time. */
  predicate NotStaged(s: State, k: Uuid) {
    k in s.past.keys && forall a :: a in s.workers ==> !Staging(s.workers[a].job, k)
  }

  /** The key was issued, no file has it, and nobody will write one. */
  predicate FileGone(s: State, k: Uuid) { k !in s.disk.files && NotStaged(s, k) }

  predicate IsStep(e: Event) { e.OfPublish? || e.OfRemove? || e.OfVisibility? || e.OfConvert? || e.OfAlias? || e.OfRebuild? || e.OfDaily? }

  /** Jobs are staged only when they start. */
  lemma StepsStageNothing(s: State, e: Event, k: Uuid)
    requires Enabled(s, e) && IsStep(e) && NotStaged(s, k)
    ensures NotStaged(Apply(s, e), k)
  {
    var t := Apply(s, e);
    assert t.workers == s.workers[e.a := t.workers[e.a]] && s.past.keys.Keys <= t.past.keys.Keys;
  }

  lemma NotStagedKept(s: State, e: Event, k: Uuid)
    requires Enabled(s, e) && NotStaged(s, k)
    ensures NotStaged(Apply(s, e), k)
  {
    if IsStep(e) { StepsStageNothing(s, e, k); }
  }

  /** Files are only written by staged uploads, and under fresh keys by conversions. */
  lemma FileGoneKept(s: State, e: Event, k: Uuid)
    requires Enabled(s, e) && FileGone(s, k)
    ensures FileGone(Apply(s, e), k)
  {
    NotStagedKept(s, e, k);
  }

  lemma FileGoneForever(s: State, events: seq<Event>, k: Uuid)
    requires FileGone(s, k) && Run(s, events).Some?
    ensures FileGone(Run(s, events).value, k)
  {
    forall s, e | FileGone(s, k) && Next(s, e).Some? ensures FileGone(Next(s, e).value, k) { FileGoneKept(s, e, k); }
    Runs.InvariantHolds(Next, s => FileGone(s, k), s, events);
  }

  /** The key of a stored image, or of content made for one, belongs to no upload still to be written. */
  lemma OwnedIsNotStaged(s: State, k: Uuid, id: Uuid)
    requires Owns(s.past, k, id) && id in s.past.born
    requires forall b :: b in s.workers ==> WorkerFine(s, b, s.workers[b].job)
    ensures NotStaged(s, k)
  {
    forall b | b in s.workers ensures !Staging(s.workers[b].job, k) { assert WorkerFine(s, b, s.workers[b].job); }
  }

  lemma FinalFrom(s: State, e: Event, k: Uuid, later: seq<Event>)
    requires Enabled(s, e) && NotStaged(s, k) && k !in Apply(s, e).disk.files && Run(s, [e] + later).Some?
    ensures k !in Run(s, [e] + later).value.disk.files
  {
    NotStagedKept(s, e, k);
    assert ([e] + later)[1..] == later;
    FileGoneForever(Apply(s, e), later, k);
  }

  /** No other file is touched. */
  predicate OnlyRemoves(s: State, t: State, k: Uuid) { t.disk.files == s.disk.files - {k} && t.disk.thumbs == s.disk.thumbs }

  /** The file of a deleted image is gone, and in every continuation. */
  lemma DeletedFileStaysGone(s: State, a: Actor, later: seq<Event>)
    requires Inv(s) && RemoveEnabled(s, a, DeleteFile) && Run(s, [OfRemove(a, DeleteFile)] + later).Some?
    ensures var k := s.workers[a].job.rem.key;
      && OnlyRemoves(s, RemoveStepped(s, a, DeleteFile), k)
      && k !in Run(s, [OfRemove(a, DeleteFile)] + later).value.disk.files
  {
    var job := s.workers[a].job;
    assert WorkerFine(s, a, job);
    OwnedIsNotStaged(s, job.rem.key, job.image);
    FinalFrom(s, OfRemove(a, DeleteFile), job.rem.key, later);
  }

  /** The old file of a converted image is gone, and in every continuation; the new one is untouched. */
  lemma OldContentStaysGone(s: State, a: Actor, later: seq<Event>)
    requires Inv(s) && ConvertEnabled(s, a, RemoveOldFile) && Run(s, [OfConvert(a, RemoveOldFile)] + later).Some?
    ensures var c := s.workers[a].job.conv.c;
      && OnlyRemoves(s, ConvertStepped(s, a, RemoveOldFile), c.before.key) && c.after.key != c.before.key
      && c.before.key !in Run(s, [OfConvert(a, RemoveOldFile)] + later).value.disk.files
  {
    var job := s.workers[a].job;
    assert WorkerFine(s, a, job);
    OwnedIsNotStaged(s, job.conv.c.before.key, job.image);
    FinalFrom(s, OfConvert(a, RemoveOldFile), job.conv.c.before.key, later);
  }

  /** The new file of a conversion that was given up is gone, and in every continuation. */
  lemma NewContentStaysGone(s: State, a: Actor, later: seq<Event>)
    requires Inv(s) && ConvertEnabled(s, a, RemoveNewFile) && Run(s, [OfConvert(a, RemoveNewFile)] + later).Some?
    ensures var c := s.workers[a].job.conv.c;
      && OnlyRemoves(s, ConvertStepped(s, a, RemoveNewFile), c.after.key) && c.after.key != c.before.key
      && c.after.key !in Run(s, [OfConvert(a, RemoveNewFile)] + later).value.disk.files
  {
    var job := s.workers[a].job;
    assert WorkerFine(s, a, job);
    OwnedIsNotStaged(s, job.conv.c.after.key, job.image);
    FinalFrom(s, OfConvert(a, RemoveNewFile), job.conv.c.after.key, later);
  }

  /** The file of an upload or import that was rolled back is gone, and in every continuation. */
  lemma RolledBackFileStaysGone(s: State, a: Actor, later: seq<Event>)
    requires Inv(s) && PublishEnabled(s, a, RemoveFile) && Run(s, [OfPublish(a, RemoveFile)] + later).Some?
    ensures var k := s.workers[a].job.d.id;
      && OnlyRemoves(s, PublishStepped(s, a, RemoveFile), k)
      && k !in Run(s, [OfPublish(a, RemoveFile)] + later).value.disk.files
  {
    var k := s.workers[a].job.d.id;
    assert WorkerFine(s, a, s.workers[a].job);
    forall b | b in s.workers ensures !Staging(s.workers[b].job, k) { assert WorkerFine(s, b, s.workers[b].job); }
    FinalFrom(s, OfPublish(a, RemoveFile), k, later);
  }

  // ---------------------------------------------------------------- thumbnails

  /** A job that may write the thumbnail of the image, now or later. */
  predicate Thumbing(job: Job, id: Uuid) {
    || (job.Publish? && job.d.id == id && (job.pub.Staged? || job.pub.Filed?))
    || (job.Convert? && job.image == id && !job.conv.ToConvert?)
  }

  /** The image has no row and never will, and nobody will write a thumbnail for it. */
  predicate NoThumbComes(s: State, id: Uuid) {
    && id in s.past.keys && id !in s.db.rows
    && forall a :: a in s.workers ==> !Thumbing(s.workers[a].job, id)
  }

  predicate ThumbGone(s: State, id: Uuid) { id !in s.disk.thumbs && NoThumbComes(s, id) }

  lemma StepsThumbNothing(s: State, e: Event, id: Uuid)
    requires Enabled(s, e) && IsStep(e) && NoThumbComes(s, id)
    ensures NoThumbComes(Apply(s, e), id) && (id !in s.disk.thumbs ==> id !in Apply(s, e).disk.thumbs)
  {
    var t := Apply(s, e);
    assert !Thumbing(s.workers[e.a].job, id);
    assert t.workers == s.workers[e.a := t.workers[e.a]] && s.past.keys.Keys <= t.past.keys.Keys;
  }

  lemma ThumbGoneKept(s: State, e: Event, id: Uuid)
    requires Enabled(s, e) && ThumbGone(s, id)
    ensures ThumbGone(Apply(s, e), id)
  {
    if IsStep(e) { StepsThumbNothing(s, e, id); }
  }

  lemma ThumbGoneForever(s: State, events: seq<Event>, id: Uuid)
    requires ThumbGone(s, id) && Run(s, events).Some?
    ensures ThumbGone(Run(s, events).value, id)
  {
    forall s, e | ThumbGone(s, id) && Next(s, e).Some? ensures ThumbGone(Next(s, e).value, id) { ThumbGoneKept(s, e, id); }
    Runs.InvariantHolds(Next, s => ThumbGone(s, id), s, events);
  }

  lemma FinalThumbFrom(s: State, e: Event, id: Uuid, later: seq<Event>)
    requires Enabled(s, e) && IsStep(e) && NoThumbComes(s, id) && id !in Apply(s, e).disk.thumbs && Run(s, [e] + later).Some?
    ensures id !in Run(s, [e] + later).value.disk.thumbs
  {
    StepsThumbNothing(s, e, id);
    assert ([e] + later)[1..] == later;
    ThumbGoneForever(Apply(s, e), later, id);
  }

  predicate OnlyRemovesThumb(s: State, t: State, id: Uuid) { t.disk.thumbs == s.disk.thumbs - {id} && t.disk.files == s.disk.files }

  /** Whoever has got past taking the image lock for a conversion still holds it, so a deletion excludes it. */
  lemma DeletionIsAlone(s: State, a: Actor)
    requires Inv(s) && RemoveEnabled(s, a, DeleteThumb)
    ensures NoThumbComes(s, s.workers[a].job.image)
  {
    var id := s.workers[a].job.image;
    FactsOf(s, a);
    assert id in s.past.keys;
    forall b | b in s.workers ensures !Thumbing(s.workers[b].job, id) {
      assert WorkerFine(s, b, s.workers[b].job);
      assert Locking.Registered(s.locks, b, s.workers[b]) && Locking.HoldsEnough(s.workers[b]);
    }
  }

  /** The thumbnail of a deleted image is gone, and in every continuation. */
  lemma DeletedThumbStaysGone(s: State, a: Actor, later: seq<Event>)
    requires Inv(s) && RemoveEnabled(s, a, DeleteThumb) && Run(s, [OfRemove(a, DeleteThumb)] + later).Some?
    ensures var id := s.workers[a].job.image;
      && OnlyRemovesThumb(s, RemoveStepped(s, a, DeleteThumb), id)
      && id !in Run(s, [OfRemove(a, DeleteThumb)] + later).value.disk.thumbs
  {
    DeletionIsAlone(s, a);
    FinalThumbFrom(s, OfRemove(a, DeleteThumb), s.workers[a].job.image, later);
  }

  /** The thumbnail of an upload or import that was rolled back is gone, and in every continuation. */
  lemma RolledBackThumbStaysGone(s: State, a: Actor, later: seq<Event>)
    requires Inv(s) && PublishEnabled(s, a, RemoveThumb) && Run(s, [OfPublish(a, RemoveThumb)] + later).Some?
    ensures var id := s.workers[a].job.d.id;
      && OnlyRemovesThumb(s, PublishStepped(s, a, RemoveThumb), id)
      && id !in Run(s, [OfPublish(a, RemoveThumb)] + later).value.disk.thumbs
  {
    var id := s.workers[a].job.d.id;
    assert WorkerFine(s, a, s.workers[a].job);
    assert forall r :: r in s.db.rows ==> RowFine(s, r);
    forall b | b in s.workers ensures !Thumbing(s.workers[b].job, id) { assert WorkerFine(s, b, s.workers[b].job); }
    FinalThumbFrom(s, OfPublish(a, RemoveThumb), id, later);
  }

  /** A conversion without a new thumbnail drops the old one; the cleaner drops exactly the one it marked. */
  lemma OtherThumbSteps(s: State, a: Actor)
    ensures ConvertEnabled(s, a, ForgetThumb) ==> OnlyRemovesThumb(s, ConvertStepped(s, a, ForgetThumb), s.workers[a].job.image)
    ensures forall id :: DailyEnabled(s, a, SweepThumb(id)) ==> OnlyRemovesThumb(s, DailyStepped(s, a, SweepThumb(id)), id)
    ensures forall m :: PublishEnabled(s, a, PutThumb(m)) ==>
      PublishStepped(s, a, PutThumb(m)).disk == s.disk.(thumbs := s.disk.thumbs[s.workers[a].job.d.id := m])
    ensures forall m :: ConvertEnabled(s, a, ReplaceThumb(m)) ==>
      ConvertStepped(s, a, ReplaceThumb(m)).disk == s.disk.(thumbs := s.disk.thumbs[s.workers[a].job.image := m])
  {
  }

  // ---------------------------------------------------------------- the barrier

  /** A deletion and a conversion let rebuilds in before they touch the files. */
  lemma FilesAreRemovedOutsideTheBarrier(s: State, a: Actor)
    requires Inv(s) && Has(s, a)
    ensures RemoveEnabled(s, a, LeaveShared) ==>
      var t := RemoveStepped(s, a, LeaveShared); a !in t.locks.readers && RemoveEnabled(t, a, DeleteFile) && RemoveEnabled(t, a, DeleteThumb)
    ensures ConvertEnabled(s, a, LeaveSharedAfter) ==>
      var t := ConvertStepped(s, a, LeaveSharedAfter); a !in t.locks.readers && ConvertEnabled(t, a, RemoveOldFile)
    ensures RemoveEnabled(s, a, DeleteFile) || ConvertEnabled(s, a, RemoveOldFile) || ConvertEnabled(s, a, RemoveNewFile) ==>
      a !in s.locks.readers
  {
    assert Locking.HoldsEnough(s.workers[a]);
  }
}
