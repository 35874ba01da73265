/** Uploads and imports: every step keeps the invariant. */
module PublishSteps {
  import opened Base
  import opened Delivery
  import opened Loader
  import opened Protocol
  import opened Invariant
  import opened Frames
  import Locking

  lemma Moving(s: State, a: Actor, step: PublishStep)
    requires Facts(s, a) && PublishEnabled(s, a, step) && !step.Abandon?
    ensures var t := PublishStepped(s, a, step); Moves(s, t, a) && Locking.Advances(s.workers[a], t.workers[a])
  {
  }

  lemma Staying(s: State, a: Actor, step: PublishStep)
    requires Facts(s, a) && PublishEnabled(s, a, step) && !step.Abandon?
    ensures var t := PublishStepped(s, a, step); Local(s, t, HeldImage(t.workers[a]), HeldPath(t.workers[a]))
  {
  }

  lemma Sparing(s: State, a: Actor, step: PublishStep)
    requires Facts(s, a) && PublishEnabled(s, a, step) && !step.Abandon?
    ensures Spares(s, PublishStepped(s, a, step), a)
  {
  }

  lemma Tidying(s: State, a: Actor, step: PublishStep)
    requires Facts(s, a) && StoresFine(s) && PublishEnabled(s, a, step) && !step.Abandon?
    ensures var t := PublishStepped(s, a, step); Tidy(s, t, HeldImage(t.workers[a]))
  {
  }

  lemma RowsLanding(s: State, a: Actor)
    requires Facts(s, a) && PublishEnabled(s, a, InsertRows)
    ensures Lands(s, PublishStepped(s, a, InsertRows), a)
  {
  }

  lemma ShowLanding(s: State, a: Actor, step: PublishStep)
    requires Facts(s, a) && PublishEnabled(s, a, step) && (step.ShowTarget? || step.ShowAlias?)
    ensures Lands(s, PublishStepped(s, a, step), a)
  {
  }

  lemma FileLanding(s: State, a: Actor, step: PublishStep)
    requires Facts(s, a) && PublishEnabled(s, a, step)
    requires !step.Abandon? && !step.InsertRows? && !step.ShowTarget? && !step.ShowAlias?
    ensures Lands(s, PublishStepped(s, a, step), a)
  {
  }

  lemma Landing(s: State, a: Actor, step: PublishStep)
    requires Facts(s, a) && PublishEnabled(s, a, step) && !step.Abandon?
    ensures Lands(s, PublishStepped(s, a, step), a)
  {
    if step.InsertRows? { RowsLanding(s, a); }
    else if step.ShowTarget? || step.ShowAlias? { ShowLanding(s, a, step); }
    else { FileLanding(s, a, step); }
  }

  lemma Kept(s: State, a: Actor, step: PublishStep)
    requires Inv(s) && PublishEnabled(s, a, step) && !step.Abandon?
    ensures Inv(PublishStepped(s, a, step))
  {
    FactsOf(s, a);
    Moving(s, a, step);
    Staying(s, a, step);
    Sparing(s, a, step);
    Tidying(s, a, step);
    Landing(s, a, step);
    Locking.AdvanceKeepsLocked(s.workers, s.locks, a, PublishStepped(s, a, step).workers[a]);
    InvAfterMove(s, PublishStepped(s, a, step), a);
  }

  lemma AbandonFacts(s: State, a: Actor)
    requires Facts(s, a) && PublishEnabled(s, a, Abandon)
    ensures var t := PublishStepped(s, a, Abandon);
      && Spares(s, t, a) && WorkerFine(t, a, t.workers[a].job)
      && Locking.HoldsEnough(t.workers[a]) && t.workers[a].held == NoLocks
  {
  }

  lemma AbandonLocked(s: State, a: Actor)
    requires Locking.Locked(s.workers, s.locks) && Facts(s, a) && PublishEnabled(s, a, Abandon)
    ensures var t := PublishStepped(s, a, Abandon); Locking.Locked(t.workers, t.locks)
  {
    var t := PublishStepped(s, a, Abandon);
    AbandonFacts(s, a);
    Locking.ReleaseKeepsLocked(s.workers, s.locks, a);
    Locking.StartKeepsLocked(s.workers - {a}, t.locks, a, t.workers[a]);
    assert (s.workers - {a})[a := t.workers[a]] == t.workers;
  }

  /** Giving up after the file was committed: release the locks, then clean up. */
  lemma AbandonKept(s: State, a: Actor)
    requires Inv(s) && PublishEnabled(s, a, Abandon)
    ensures Inv(PublishStepped(s, a, Abandon))
  {
    var t := PublishStepped(s, a, Abandon);
    FactsOf(s, a);
    AbandonFacts(s, a);
    AbandonLocked(s, a);
    AbandonReleases(s, a);
    WorkersAfterMove(s, t, a);
  }

  lemma AbandonReleases(s: State, a: Actor)
    requires Inv(s) && PublishEnabled(s, a, Abandon)
    ensures var t := PublishStepped(s, a, Abandon);
      (forall id :: ImageFine(t, id)) && (forall p :: AliasFine(t, p)) && StoresFine(t)
  {
    InvAfterRelease(s, PublishStepped(s, a, Abandon), a);
  }
}
