/** Who holds which lock in which phase: the part of the invariant that only concerns locks. */
module Locking {
  import opened Base
  import opened Delivery
  import opened Loader
  import opened Protocol

  /** Locks are taken in order and kept as long as the phase needs them. */
  predicate HoldsEnough(w: Worker) {
    && (w.held.image ==> ImageOf(w.job).Some?)
    && (w.held.path ==> PathOf(w.job).Some? && (ImageOf(w.job).Some? ==> w.held.image))
    && (w.held.barrier ==> (ImageOf(w.job).Some? ==> w.held.image) && (PathOf(w.job).Some? ==> w.held.path))
    && match w.job
       case Publish(_, p) =>
         if p.Staged? || p.Abandoned? then w.held == NoLocks else p.Filed? || w.held.barrier
       case Remove(_, p) => if p.RowGone? then w.held.barrier else p.ToRemove? || w.held.image
       case SetVisibility(_, _, p) => p.ToSet? || w.held.barrier
       case Convert(_, p) =>
         if p.ToConvert? then !w.held.barrier
         else w.held.image && (p.RowReplaced? ==> w.held.barrier) && (p.SourceRead? || p.GivenUp? ==> !w.held.barrier)
       case AddAlias(_, _, p) => p.ToAdd? || w.held.barrier
       case DropAlias(_, p) => if p.ToFind? then w.held == NoLocks else p.Found? || w.held.barrier
       case Rebuild(p) => p.ToBuild? || w.held.barrier
       case Daily(_, _) => w.held == NoLocks
  }

  /** The lock table and the workers agree on who holds what, and the barrier is respected. */
  predicate Locked(ws: Workers, l: LockTable) {
    && (forall id :: id in l.image ==> l.image[id] in ws && ws[l.image[id]].held.image && ImageOf(ws[l.image[id]].job) == Some(id))
    && (forall p :: p in l.path ==> l.path[p] in ws && ws[l.path[p]].held.path && PathOf(ws[l.path[p]].job) == Some(p))
    && (forall a :: a in l.readers ==> a in ws && ws[a].held.barrier && !ws[a].job.Rebuild?)
    && (l.writer.Some? ==> l.readers == {} && l.writer.value in ws && ws[l.writer.value].held.barrier && ws[l.writer.value].job.Rebuild?)
    && (forall a :: a in ws ==> Registered(l, a, ws[a]) && HoldsEnough(ws[a]))
  }

  predicate Registered(l: LockTable, a: Actor, w: Worker) {
    && (w.held.image ==> ImageOf(w.job).Some? && ImageOf(w.job).value in l.image && l.image[ImageOf(w.job).value] == a)
    && (w.held.path ==> PathOf(w.job).Some? && PathOf(w.job).value in l.path && l.path[PathOf(w.job).value] == a)
    && (w.held.barrier ==> if w.job.Rebuild? then l.writer == Some(a) else a in l.readers)
  }

  /** The new phase of a job needs no lock the job does not hold. */
  predicate Advances(w: Worker, v: Worker) {
    && v.held == w.held
    && ImageOf(v.job) == ImageOf(w.job)
    && (w.held.path ==> PathOf(v.job) == PathOf(w.job))
    && v.job.Rebuild? == w.job.Rebuild?
    && HoldsEnough(v)
  }

  lemma AdvanceKeepsLocked(ws: Workers, l: LockTable, a: Actor, v: Worker)
    requires Locked(ws, l) && a in ws && Advances(ws[a], v)
    ensures Locked(ws[a := v], l)
  {
  }

  lemma StartKeepsLocked(ws: Workers, l: LockTable, a: Actor, w: Worker)
    requires Locked(ws, l) && a !in ws && w.held == NoLocks && HoldsEnough(w)
    ensures Locked(ws[a := w], l)
  {
  }

  lemma TakenHoldsEnough(w: Worker)
    requires HoldsEnough(w) && MayLock(w)
    ensures HoldsEnough(w.(held := Taken(w)))
  {
  }

  lemma TakeRegisters(l: LockTable, a: Actor, w: Worker)
    requires MayLock(w) && LockFree(l, w) && Registered(l, a, w)
    ensures Registered(Take(l, a, w), a, w.(held := Taken(w)))
    ensures forall b, v :: b != a && Registered(l, b, v) ==> Registered(Take(l, a, w), b, v)
  {
  }

  lemma TakeImageKeepsLocked(ws: Workers, l: LockTable, a: Actor)
    requires Locked(ws, l) && a in ws && MayLock(ws[a]) && LockFree(l, ws[a]) && WantsImage(ws[a])
    ensures Locked(ws[a := ws[a].(held := Taken(ws[a]))], Take(l, a, ws[a]))
  {
    TakenHoldsEnough(ws[a]);
    TakeRegisters(l, a, ws[a]);
  }

  lemma TakePathKeepsLocked(ws: Workers, l: LockTable, a: Actor)
    requires Locked(ws, l) && a in ws && MayLock(ws[a]) && LockFree(l, ws[a]) && !WantsImage(ws[a]) && WantsPath(ws[a])
    ensures Locked(ws[a := ws[a].(held := Taken(ws[a]))], Take(l, a, ws[a]))
  {
    TakenHoldsEnough(ws[a]);
    TakeRegisters(l, a, ws[a]);
  }

  lemma TakeBarrierKeepsLocked(ws: Workers, l: LockTable, a: Actor)
    requires Locked(ws, l) && a in ws && MayLock(ws[a]) && LockFree(l, ws[a]) && !WantsImage(ws[a]) && !WantsPath(ws[a])
    ensures Locked(ws[a := ws[a].(held := Taken(ws[a]))], Take(l, a, ws[a]))
  {
    TakenHoldsEnough(ws[a]);
    TakeRegisters(l, a, ws[a]);
  }

  lemma TakeKeepsLocked(ws: Workers, l: LockTable, a: Actor)
    requires Locked(ws, l) && a in ws && MayLock(ws[a]) && LockFree(l, ws[a])
    ensures Locked(ws[a := ws[a].(held := Taken(ws[a]))], Take(l, a, ws[a]))
  {
    if WantsImage(ws[a]) {
      TakeImageKeepsLocked(ws, l, a);
    } else if WantsPath(ws[a]) {
      TakePathKeepsLocked(ws, l, a);
    } else {
      TakeBarrierKeepsLocked(ws, l, a);
    }
  }

  lemma LeaveKeepsLocked(ws: Workers, l: LockTable, a: Actor, v: Worker)
    requires Locked(ws, l) && a in ws && ws[a].held.barrier
    requires v.held == ws[a].held.(barrier := false) && HoldsEnough(v)
    requires ImageOf(v.job) == ImageOf(ws[a].job) && PathOf(v.job) == PathOf(ws[a].job)
    ensures Locked(ws[a := v], LeaveBarrier(l, a))
  {
  }

  lemma ReleaseKeepsLocked(ws: Workers, l: LockTable, a: Actor)
    requires Locked(ws, l) && a in ws
    ensures Locked(ws - {a}, Release(l, a))
  {
    var m := Release(l, a);
    forall b | b in ws && b != a ensures Registered(m, b, ws[b]) {
      assert Registered(l, b, ws[b]);
    }
  }
}
