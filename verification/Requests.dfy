/** One job running while nobody else holds a lock: taking locks, moving from phase to phase, and ending. */
module Requests {
  import opened Base
  import opened Delivery
  import opened Protocol
  import Runs

  /** No lock is held; jobs may be anywhere where they hold none. */
  predicate Free(s: State) { s.locks == FREE }

  predicate Ends(s: State, t: State) { t.workers == s.workers && t.locks == FREE && t.clock == s.clock }

  // ---------------------------------------------------------------- locks

  /** A state in which one job holds the given locks, and nobody else any. */
  function Having(s: State, a: Actor, job: Job, h: Held): State {
    s.(workers := s.workers[a := Worker(job, h)],
       locks := LockTable(
         if h.image && ImageOf(job).Some? then map[ImageOf(job).value := a] else map[],
         if h.path && PathOf(job).Some? then map[PathOf(job).value := a] else map[],
         if h.barrier && !job.Rebuild? then {a} else {}, if h.barrier && job.Rebuild? then Some(a) else None))
  }

  lemma OneLock(s: State, a: Actor, job: Job, h: Held)
    requires MayLock(Worker(job, h))
    ensures Next(Having(s, a, job, h), Lock(a)) == Some(Having(s, a, job, Taken(Worker(job, h))))
  {
    var t := Locked(Having(s, a, job, h), a);
    var u := Having(s, a, job, Taken(Worker(job, h)));
    assert t.workers == u.workers && t.locks.image == u.locks.image && t.locks.path == u.locks.path;
    assert t.locks.readers == u.locks.readers;
  }

  function LocksOf(a: Actor, job: Job): seq<Event> {
    if ImageOf(job).Some? && PathOf(job).Some? then [Lock(a), Lock(a), Lock(a)]
    else if ImageOf(job).Some? || PathOf(job).Some? then [Lock(a), Lock(a)]
    else [Lock(a)]
  }

  function AllLocks(job: Job): Held { Held(ImageOf(job).Some?, PathOf(job).Some?, true) }

  /** Its locks are free, so a job can take them all. */
  lemma Locks(s: State, a: Actor, job: Job)
    requires MayLock(Worker(job, NoLocks)) && !job.Convert?
    ensures Run(Having(s, a, job, NoLocks), LocksOf(a, job)) == Some(Having(s, a, job, AllLocks(job)))
  {
    var image := NoLocks.(image := ImageOf(job).Some?);
    var path := image.(path := PathOf(job).Some?);
    var none := NoLocks;
    if image != none { OneLock(s, a, job, none); }
    if path != image { OneLock(s, a, job, image); }
    OneLock(s, a, job, path);
    var first, second, third := Having(s, a, job, none), Having(s, a, job, image), Having(s, a, job, path);
    var last := Having(s, a, job, AllLocks(job));
    if image != none && path != image {
      Runs.TraceRuns(Next, [first, second, third, last], LocksOf(a, job));
    } else if image != none || path != image {
      Runs.TraceRuns(Next, [first, third, last], LocksOf(a, job));
    } else {
      Runs.TraceRuns(Next, [first, last], LocksOf(a, job));
    }
  }

  /** Ending gives every lock back. */
  lemma Returns(s: State, a: Actor, job: Job, h: Held)
    requires a !in s.workers && !Midway(job)
    ensures Next(Having(s, a, job, h), Finish(a)) == Some(s.(locks := FREE))
  {
    var t := Finished(Having(s, a, job, h), a);
    assert t.workers == s.workers && t.locks.image == map[] && t.locks.path == map[];
    assert t.locks.readers == {};
  }

  lemma Starts(s: State, a: Actor, job: Job)
    requires Free(s) && a !in s.workers && MayStart(s, job)
    ensures Next(s, Start(a, job)) == Some(Having(s.(past := Issued(s.past, a, job)), a, job, NoLocks))
  {
  }

  /** A step to another phase keeps the locks. */
  lemma Goes(s: State, a: Actor, job: Job, h: Held, to: Job)
    requires h == NoLocks || (ImageOf(to) == ImageOf(job) && PathOf(to) == PathOf(job) && (to.Rebuild? <==> job.Rebuild?))
    ensures Goto(Having(s, a, job, h), a, to) == Having(s, a, to, h).workers
    ensures Having(s, a, job, h).locks == Having(s, a, to, h).locks
  {
  }

  /** The barrier can be left before the other locks. */
  lemma Leaves(s: State, a: Actor, job: Job, h: Held)
    requires !job.Rebuild?
    ensures LeaveBarrier(Having(s, a, job, h).locks, a) == Having(s, a, job, h.(barrier := false)).locks
    ensures Having(s, a, job, h).workers[a := Worker(job, h.(barrier := false))] == Having(s, a, job, h.(barrier := false)).workers
  {
  }
}
