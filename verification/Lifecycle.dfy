/** Starting, locking, finishing, waiting and restarting keep the invariant. */
module Lifecycle {
  import opened Base
  import opened Delivery
  import opened Loader
  import opened Protocol
  import opened Invariant
  import opened Frames
  import Locking
  import RebuildSteps

  lemma StartFacts(s: State, a: Actor, job: Job)
    requires PastFine(s) && DiskFine(s) && !Has(s, a) && MayStart(s, job)
    ensures var t := Started(s, a, job); Spares(s, t, a) && WorkerFine(t, a, job) && Locking.HoldsEnough(t.workers[a])
  {
  }

  lemma StartPast(s: State, a: Actor, job: Job)
    requires PastFine(s) && DiskFine(s) && !Has(s, a) && MayStart(s, job)
    ensures PastFine(Started(s, a, job)) && DiskFine(Started(s, a, job))
  {
  }

  lemma StartStores(s: State, a: Actor, job: Job)
    requires StoresFine(s) && !Has(s, a) && MayStart(s, job)
    ensures StoresFine(Started(s, a, job))
  {
    var t := Started(s, a, job);
    StartPast(s, a, job);
    forall id | id in t.db.rows ensures RowFine(t, id) { assert RowFine(s, id); }
    forall id | id in t.index.byID ensures TargetFine(t, id) { assert TargetFine(s, id); }
    forall p | p in t.db.aliases ensures AliasRowFine(t, p) { assert AliasRowFine(s, p); }
  }

  lemma StartIndex(s: State, a: Actor, job: Job)
    requires Locking.Locked(s.workers, s.locks) && !Has(s, a)
    requires forall id :: ImageFine(s, id)
    requires forall p :: AliasFine(s, p)
    ensures forall id :: ImageFine(Started(s, a, job), id)
    ensures forall p :: AliasFine(Started(s, a, job), p)
  {
    var t := Started(s, a, job);
    forall id: Uuid ensures ImageFine(t, id) { assert ImageFine(s, id); }
    forall p ensures AliasFine(t, p) { assert AliasFine(s, p); }
  }

  lemma StartKept(s: State, a: Actor, job: Job)
    requires Inv(s) && !Has(s, a) && MayStart(s, job)
    ensures Inv(Started(s, a, job))
  {
    var t := Started(s, a, job);
    StartFacts(s, a, job);
    StartStores(s, a, job);
    StartIndex(s, a, job);
    Locking.StartKeepsLocked(s.workers, s.locks, a, t.workers[a]);
    WorkersAfterMove(s, t, a);
  }

  lemma LockedPending(s: State, a: Actor, id: Uuid)
    requires Locking.Locked(s.workers, s.locks) && Has(s, a) && MayLock(s.workers[a]) && LockFree(s.locks, s.workers[a])
    ensures var t := Locked(s, a);
      PendingAt(t.workers, t.locks, id) ==
      if WantsImage(s.workers[a]) && ImageOf(s.workers[a].job) == Some(id) then PendingOf(s.workers[a].job)
      else PendingAt(s.workers, s.locks, id)
  {
  }

  lemma LockedPathPending(s: State, a: Actor, p: Path)
    requires Locking.Locked(s.workers, s.locks) && Has(s, a) && MayLock(s.workers[a]) && LockFree(s.locks, s.workers[a])
    ensures var t := Locked(s, a); PathPendingAt(t.workers, t.locks, p) == PathPendingAt(s.workers, s.locks, p)
  {
  }

  lemma LockedIndex(s: State, a: Actor)
    requires Locking.Locked(s.workers, s.locks) && Has(s, a) && MayLock(s.workers[a]) && LockFree(s.locks, s.workers[a])
    requires WorkerFine(s, a, s.workers[a].job) && RowsFine(s) && TargetsFine(s)
    requires forall id :: ImageFine(s, id)
    requires forall p :: AliasFine(s, p)
    ensures forall id :: ImageFine(Locked(s, a), id)
    ensures forall p :: AliasFine(Locked(s, a), p)
  {
    var t := Locked(s, a);
    forall id: Uuid ensures ImageFine(t, id) {
      assert ImageFine(s, id);
      LockedPending(s, a, id);
    }
    forall p ensures AliasFine(t, p) {
      assert AliasFine(s, p);
      LockedPathPending(s, a, p);
      if p in s.index.aliases { LockedPending(s, a, s.index.aliases[p]); }
    }
  }

  lemma LockedWorkers(s: State, a: Actor)
    requires Has(s, a) && WorkerFine(s, a, s.workers[a].job) && StoresFine(s)
    requires forall b :: b in s.workers ==> WorkerFine(s, b, s.workers[b].job)
    ensures forall b :: b in Locked(s, a).workers ==> WorkerFine(Locked(s, a), b, Locked(s, a).workers[b].job)
    ensures StoresFine(Locked(s, a))
  {
    var t := Locked(s, a);
    forall b | b in t.workers ensures WorkerFine(t, b, t.workers[b].job) {
      assert WorkerFine(s, b, s.workers[b].job);
    }
  }

  lemma LockKept(s: State, a: Actor)
    requires Inv(s) && Has(s, a) && MayLock(s.workers[a]) && LockFree(s.locks, s.workers[a])
    ensures Inv(Locked(s, a))
  {
    Locking.TakeKeepsLocked(s.workers, s.locks, a);
    LockedIndex(s, a);
    LockedWorkers(s, a);
  }

  lemma FinishedWorkers(s: State, a: Actor)
    requires forall b :: b in s.workers ==> WorkerFine(s, b, s.workers[b].job)
    ensures forall b :: b in Finished(s, a).workers ==> WorkerFine(Finished(s, a), b, Finished(s, a).workers[b].job)
  {
    var t := Finished(s, a);
    forall b | b in t.workers ensures WorkerFine(t, b, t.workers[b].job) {
      assert WorkerFine(s, b, s.workers[b].job);
    }
  }

  lemma FinishKept(s: State, a: Actor)
    requires Inv(s) && Has(s, a) && !Midway(s.workers[a].job)
    ensures Inv(Finished(s, a))
  {
    var t := Finished(s, a);
    Locking.ReleaseKeepsLocked(s.workers, s.locks, a);
    InvAfterRelease(s, t, a);
    FinishedWorkers(s, a);
  }

  lemma TickKept(s: State, dt: nat)
    requires Inv(s)
    ensures Inv(s.(clock := s.clock + dt))
  {
    var t := s.(clock := s.clock + dt);
    UnixMonotone(s.clock, t.clock);
    forall id: Uuid ensures ImageFine(t, id) { assert ImageFine(s, id); }
    forall p ensures AliasFine(t, p) { assert AliasFine(s, p); }
    forall b | b in t.workers ensures WorkerFine(t, b, t.workers[b].job) {
      WorkerSpared(s, t, b + 1, b, s.workers[b].job);
    }
  }

  /** A crash loses the jobs, the locks and the index, and the next start builds the index again. */
  lemma RestartKept(s: State)
    requires Inv(s)
    ensures Inv(Restarted(s))
  {
    var idle := s.(workers := map[], locks := FREE);
    var t := Restarted(s);
    forall id | id in s.db.rows ensures Stored(s.disk.files, s.db.rows[id]) { assert RowFine(s, id); }
    assert BuildTargets(s.db.rows, s.disk.files) == AllTargets(s.db.rows);
    NoRootStored(s);
    RebuildSteps.CompleteAliases(idle, t);
    RebuildSteps.CompleteTargets(s, t);
    forall id: Uuid ensures ImageFine(t, id) {
      if id in s.db.rows { UnixOfFromUnix(ModifiedSecond(s.db.rows[id])); }
    }
  }
}
