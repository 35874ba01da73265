/** Conversions to WebP: every step keeps the invariant. */
module ConvertSteps {
  import opened Base
  import opened Delivery
  import opened Loader
  import opened Protocol
  import opened Invariant
  import opened Frames
  import Locking

  lemma Moving(s: State, a: Actor, step: ConvertStep)
    requires Facts(s, a) && ConvertEnabled(s, a, step) && !step.GiveUp? && !step.LeaveSharedAfter?
    ensures var t := ConvertStepped(s, a, step); Moves(s, t, a) && Locking.Advances(s.workers[a], t.workers[a])
  {
  }

  lemma Staying(s: State, a: Actor, step: ConvertStep)
    requires Facts(s, a) && ConvertEnabled(s, a, step) && !step.GiveUp? && !step.LeaveSharedAfter?
    ensures var t := ConvertStepped(s, a, step); Local(s, t, HeldImage(t.workers[a]), HeldPath(t.workers[a]))
  {
  }

  // Writing the new file and replacing the row are the steps that need care.

  lemma FileSparing(s: State, a: Actor, c: Change)
    requires Facts(s, a) && DiskFine(s) && PastFine(s) && ConvertEnabled(s, a, WriteFile(c))
    ensures Spares(s, ConvertStepped(s, a, WriteFile(c)), a)
  {
  }

  lemma RowSparing(s: State, a: Actor)
    requires Facts(s, a) && ConvertEnabled(s, a, ReplaceRow)
    ensures Spares(s, ConvertStepped(s, a, ReplaceRow), a)
  {
  }

  lemma RestSparing(s: State, a: Actor, step: ConvertStep)
    requires Facts(s, a) && PastFine(s) && ConvertEnabled(s, a, step)
    requires !step.GiveUp? && !step.LeaveSharedAfter? && !step.WriteFile? && !step.ReplaceRow?
    ensures Spares(s, ConvertStepped(s, a, step), a)
  {
  }

  lemma Sparing(s: State, a: Actor, step: ConvertStep)
    requires Facts(s, a) && DiskFine(s) && PastFine(s) && ConvertEnabled(s, a, step) && !step.GiveUp? && !step.LeaveSharedAfter?
    ensures Spares(s, ConvertStepped(s, a, step), a)
  {
    if step.WriteFile? { FileSparing(s, a, step.c); }
    else if step.ReplaceRow? { RowSparing(s, a); }
    else { RestSparing(s, a, step); }
  }

  lemma FileTidying(s: State, a: Actor, c: Change)
    requires Facts(s, a) && DiskFine(s) && PastFine(s) && ConvertEnabled(s, a, WriteFile(c))
    ensures var t := ConvertStepped(s, a, WriteFile(c)); Tidy(s, t, HeldImage(t.workers[a]))
  {
  }

  lemma RestTidying(s: State, a: Actor, step: ConvertStep)
    requires Facts(s, a) && StoresFine(s) && ConvertEnabled(s, a, step)
    requires !step.GiveUp? && !step.LeaveSharedAfter? && !step.WriteFile?
    ensures var t := ConvertStepped(s, a, step); Tidy(s, t, HeldImage(t.workers[a]))
  {
  }

  lemma Tidying(s: State, a: Actor, step: ConvertStep)
    requires Facts(s, a) && StoresFine(s) && ConvertEnabled(s, a, step) && !step.GiveUp? && !step.LeaveSharedAfter?
    ensures var t := ConvertStepped(s, a, step); Tidy(s, t, HeldImage(t.workers[a]))
  {
    if step.WriteFile? { FileTidying(s, a, step.c); } else { RestTidying(s, a, step); }
  }

  lemma FileLanding(s: State, a: Actor, c: Change)
    requires Facts(s, a) && DiskFine(s) && PastFine(s) && ConvertEnabled(s, a, WriteFile(c))
    ensures Lands(s, ConvertStepped(s, a, WriteFile(c)), a)
  {
  }

  lemma RowLanding(s: State, a: Actor)
    requires Facts(s, a) && DiskFine(s) && PastFine(s) && ConvertEnabled(s, a, ReplaceRow)
    ensures Lands(s, ConvertStepped(s, a, ReplaceRow), a)
  {
  }

  lemma TargetLanding(s: State, a: Actor)
    requires Facts(s, a) && DiskFine(s) && PastFine(s) && ConvertEnabled(s, a, ReplaceTarget)
    ensures Lands(s, ConvertStepped(s, a, ReplaceTarget), a)
  {
  }

  lemma RestLanding(s: State, a: Actor, step: ConvertStep)
    requires Facts(s, a) && DiskFine(s) && PastFine(s) && ConvertEnabled(s, a, step)
    requires !step.GiveUp? && !step.LeaveSharedAfter? && !step.WriteFile? && !step.ReplaceRow? && !step.ReplaceTarget?
    ensures Lands(s, ConvertStepped(s, a, step), a)
  {
  }

  lemma Landing(s: State, a: Actor, step: ConvertStep)
    requires Facts(s, a) && DiskFine(s) && PastFine(s) && ConvertEnabled(s, a, step)
    requires !step.GiveUp? && !step.LeaveSharedAfter?
    ensures Lands(s, ConvertStepped(s, a, step), a)
  {
    if step.WriteFile? { FileLanding(s, a, step.c); }
    else if step.ReplaceRow? { RowLanding(s, a); }
    else if step.ReplaceTarget? { TargetLanding(s, a); }
    else { RestLanding(s, a, step); }
  }

  lemma Kept(s: State, a: Actor, step: ConvertStep)
    requires Inv(s) && ConvertEnabled(s, a, step) && !step.GiveUp? && !step.LeaveSharedAfter?
    ensures Inv(ConvertStepped(s, a, step))
  {
    FactsOf(s, a);
    Moving(s, a, step);
    Staying(s, a, step);
    Sparing(s, a, step);
    Tidying(s, a, step);
    Landing(s, a, step);
    Locking.AdvanceKeepsLocked(s.workers, s.locks, a, ConvertStepped(s, a, step).workers[a]);
    InvAfterMove(s, ConvertStepped(s, a, step), a);
  }

  lemma LeavingFacts(s: State, a: Actor, step: ConvertStep)
    requires Facts(s, a) && ConvertEnabled(s, a, step) && (step.GiveUp? || step.LeaveSharedAfter?)
    ensures var t := ConvertStepped(s, a, step);
      && Moves(s, t, a) && Local(s, t, HeldImage(t.workers[a]), HeldPath(t.workers[a]))
      && Spares(s, t, a) && Lands(s, t, a)
      && Locking.HoldsEnough(t.workers[a])
  {
  }

  lemma LeavingLocked(s: State, a: Actor, step: ConvertStep)
    requires Locking.Locked(s.workers, s.locks) && Facts(s, a)
    requires ConvertEnabled(s, a, step) && (step.GiveUp? || step.LeaveSharedAfter?)
    ensures var t := ConvertStepped(s, a, step); Locking.Locked(t.workers, t.locks)
  {
    LeavingFacts(s, a, step);
    var t := ConvertStepped(s, a, step);
    if s.workers[a].held.barrier {
      Locking.LeaveKeepsLocked(s.workers, s.locks, a, t.workers[a]);
    } else {
      Locking.AdvanceKeepsLocked(s.workers, s.locks, a, t.workers[a]);
      assert t.locks == s.locks;
    }
  }

  /** Leaving the shared barrier, with the new content published or the conversion given up. */
  lemma LeaveKept(s: State, a: Actor, step: ConvertStep)
    requires Inv(s) && ConvertEnabled(s, a, step) && (step.GiveUp? || step.LeaveSharedAfter?)
    ensures Inv(ConvertStepped(s, a, step))
  {
    FactsOf(s, a);
    LeavingFacts(s, a, step);
    LeavingLocked(s, a, step);
    InvAfterMove(s, ConvertStepped(s, a, step), a);
  }
}
