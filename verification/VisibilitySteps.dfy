/** Visibility changes: every step keeps the invariant. */
module VisibilitySteps {
  import opened Base
  import opened Delivery
  import opened Loader
  import opened Protocol
  import opened Invariant
  import opened Frames
  import Locking

  lemma Moving(s: State, a: Actor, step: VisibilityStep)
    requires Facts(s, a) && VisibilityEnabled(s, a, step)
    ensures var t := VisibilityStepped(s, a, step); Moves(s, t, a) && Locking.Advances(s.workers[a], t.workers[a])
  {
  }

  lemma Staying(s: State, a: Actor, step: VisibilityStep)
    requires Facts(s, a) && VisibilityEnabled(s, a, step)
    ensures var t := VisibilityStepped(s, a, step); Local(s, t, HeldImage(t.workers[a]), HeldPath(t.workers[a]))
  {
  }

  lemma Sparing(s: State, a: Actor, step: VisibilityStep)
    requires Facts(s, a) && VisibilityEnabled(s, a, step)
    ensures Spares(s, VisibilityStepped(s, a, step), a)
  {
  }

  lemma Tidying(s: State, a: Actor, step: VisibilityStep)
    requires Facts(s, a) && StoresFine(s) && VisibilityEnabled(s, a, step)
    ensures var t := VisibilityStepped(s, a, step); Tidy(s, t, HeldImage(t.workers[a]))
  {
  }

  lemma Landing(s: State, a: Actor, step: VisibilityStep)
    requires Facts(s, a) && VisibilityEnabled(s, a, step)
    ensures Lands(s, VisibilityStepped(s, a, step), a)
  {
  }

  lemma Kept(s: State, a: Actor, step: VisibilityStep)
    requires Inv(s) && VisibilityEnabled(s, a, step)
    ensures Inv(VisibilityStepped(s, a, step))
  {
    FactsOf(s, a);
    Moving(s, a, step);
    Staying(s, a, step);
    Sparing(s, a, step);
    Tidying(s, a, step);
    Landing(s, a, step);
    Locking.AdvanceKeepsLocked(s.workers, s.locks, a, VisibilityStepped(s, a, step).workers[a]);
    InvAfterMove(s, VisibilityStepped(s, a, step), a);
  }
}
