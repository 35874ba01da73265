/** Image deletion: every step keeps the invariant. */
module RemoveSteps {
  import opened Base
  import opened Delivery
  import opened Loader
  import opened Protocol
  import opened Invariant
  import opened Frames
  import Locking

  lemma Moving(s: State, a: Actor, step: RemoveStep)
    requires Facts(s, a) && RemoveEnabled(s, a, step) && (step.DeleteFile? || step.DeleteThumb?)
    ensures var t := RemoveStepped(s, a, step); Moves(s, t, a) && Locking.Advances(s.workers[a], t.workers[a])
  {
  }

  lemma Staying(s: State, a: Actor, step: RemoveStep)
    requires Facts(s, a) && RemoveEnabled(s, a, step) && (step.DeleteFile? || step.DeleteThumb?)
    ensures var t := RemoveStepped(s, a, step); Local(s, t, HeldImage(t.workers[a]), HeldPath(t.workers[a]))
  {
  }

  lemma Sparing(s: State, a: Actor, step: RemoveStep)
    requires Facts(s, a) && RemoveEnabled(s, a, step) && (step.DeleteFile? || step.DeleteThumb?)
    ensures Spares(s, RemoveStepped(s, a, step), a)
  {
  }

  lemma Tidying(s: State, a: Actor, step: RemoveStep)
    requires Facts(s, a) && StoresFine(s) && RemoveEnabled(s, a, step) && (step.DeleteFile? || step.DeleteThumb?)
    ensures var t := RemoveStepped(s, a, step); Tidy(s, t, HeldImage(t.workers[a]))
  {
  }

  lemma Landing(s: State, a: Actor, step: RemoveStep)
    requires Facts(s, a) && RemoveEnabled(s, a, step) && (step.DeleteFile? || step.DeleteThumb?)
    ensures Lands(s, RemoveStepped(s, a, step), a)
  {
  }

  lemma Kept(s: State, a: Actor, step: RemoveStep)
    requires Inv(s) && RemoveEnabled(s, a, step) && (step.DeleteFile? || step.DeleteThumb?)
    ensures Inv(RemoveStepped(s, a, step))
  {
    FactsOf(s, a);
    Moving(s, a, step);
    Staying(s, a, step);
    Sparing(s, a, step);
    Tidying(s, a, step);
    Landing(s, a, step);
    Locking.AdvanceKeepsLocked(s.workers, s.locks, a, RemoveStepped(s, a, step).workers[a]);
    InvAfterMove(s, RemoveStepped(s, a, step), a);
  }

  lemma LeavingFacts(s: State, a: Actor)
    requires Facts(s, a) && RemoveEnabled(s, a, LeaveShared)
    ensures var t := RemoveStepped(s, a, LeaveShared);
      && Moves(s, t, a) && Local(s, t, HeldImage(t.workers[a]), HeldPath(t.workers[a]))
      && Spares(s, t, a) && Lands(s, t, a)
      && Locking.HoldsEnough(t.workers[a])
  {
  }

  lemma LeaveKept(s: State, a: Actor)
    requires Inv(s) && RemoveEnabled(s, a, LeaveShared)
    ensures Inv(RemoveStepped(s, a, LeaveShared))
  {
    FactsOf(s, a);
    LeavingFacts(s, a);
    var t := RemoveStepped(s, a, LeaveShared);
    Locking.LeaveKeepsLocked(s.workers, s.locks, a, t.workers[a]);
    InvAfterMove(s, t, a);
  }

  lemma IndexFacts(s: State, a: Actor, step: RemoveStep)
    requires Facts(s, a) && RemoveEnabled(s, a, step) && (step.DeleteRow? || step.HideTarget?)
    ensures var t := RemoveStepped(s, a, step);
      && Moves(s, t, a) && Locking.Advances(s.workers[a], t.workers[a])
      && LocalImage(s, t, HeldImage(t.workers[a])) && HeldImage(t.workers[a]) == Some(s.workers[a].job.image)
      && ImageAt(t, s.workers[a].job.image, PendingOf(t.workers[a].job))
      && Spares(s, t, a) && WorkerFine(t, a, t.workers[a].job)
  {
  }

  /** Whoever is adding an alias holds the lock of its image. */
  lemma StoringHoldsImage(s: State, p: Path)
    requires Locking.Locked(s.workers, s.locks) && PathPendingAt(s.workers, s.locks, p).Storing?
    ensures var id := PathPendingAt(s.workers, s.locks, p).image;
      id in s.locks.image && s.locks.image[id] == s.locks.path[p]
  {
    var b := s.locks.path[p];
    assert Locking.Registered(s.locks, b, s.workers[b]) && Locking.HoldsEnough(s.workers[b]);
  }

  /** The cascade holds no path lock: what it leaves in the index is stale, and nobody is adding to it. */
  lemma CascadeAlias(s: State, a: Actor, p: Path)
    requires Locking.Locked(s.workers, s.locks) && Facts(s, a) && AliasFine(s, p) && RemoveEnabled(s, a, DeleteRow)
    ensures AliasFine(RemoveStepped(s, a, DeleteRow), p)
  {
    var t := RemoveStepped(s, a, DeleteRow);
    IndexFacts(s, a, DeleteRow);
    PathPendingAfterMove(s, t, a, p);
    if p in s.index.aliases { PendingAfterMove(s, t, a, s.index.aliases[p]); }
    if PathPendingAt(s.workers, s.locks, p).Storing? { StoringHoldsImage(s, p); }
  }

  /** RemoveImage drops exactly the aliases whose target is the deleted image. */
  lemma HiddenAlias(s: State, a: Actor, p: Path)
    requires Locking.Locked(s.workers, s.locks) && Facts(s, a) && AliasFine(s, p) && AliasRowsFine(s) && RemoveEnabled(s, a, HideTarget)
    ensures AliasFine(RemoveStepped(s, a, HideTarget), p)
  {
    var t := RemoveStepped(s, a, HideTarget);
    IndexFacts(s, a, HideTarget);
    PathPendingAfterMove(s, t, a, p);
    if p in s.index.aliases { PendingAfterMove(s, t, a, s.index.aliases[p]); }
    assert p in s.db.aliases ==> AliasRowFine(s, p);
  }

  lemma IndexStores(s: State, a: Actor, step: RemoveStep)
    requires StoresFine(s) && RemoveEnabled(s, a, step) && (step.DeleteRow? || step.HideTarget?)
    ensures StoresFine(RemoveStepped(s, a, step))
  {
  }

  lemma IndexKept(s: State, a: Actor, step: RemoveStep)
    requires Inv(s) && RemoveEnabled(s, a, step) && (step.DeleteRow? || step.HideTarget?)
    ensures Inv(RemoveStepped(s, a, step))
  {
    var t := RemoveStepped(s, a, step);
    FactsOf(s, a);
    IndexFacts(s, a, step);
    IndexStores(s, a, step);
    ImagesAfterMove(s, t, a);
    forall p ensures AliasFine(t, p) {
      assert AliasFine(s, p);
      if step.DeleteRow? { CascadeAlias(s, a, p); } else { HiddenAlias(s, a, p); }
    }
    Locking.AdvanceKeepsLocked(s.workers, s.locks, a, t.workers[a]);
    WorkersAfterMove(s, t, a);
  }
}
