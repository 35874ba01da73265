/** The daily cleaner: every step keeps the invariant, although it takes no lock. */
module DailySteps {
  import opened Base
  import opened Delivery
  import opened Loader
  import opened Protocol
  import opened Invariant
  import opened Frames
  import Locking

  lemma Moving(s: State, a: Actor, step: DailyStep)
    requires Facts(s, a) && DailyEnabled(s, a, step)
    ensures var t := DailyStepped(s, a, step); Moves(s, t, a) && Locking.Advances(s.workers[a], t.workers[a])
  {
  }

  lemma Staying(s: State, a: Actor, step: DailyStep)
    requires Facts(s, a) && DailyEnabled(s, a, step)
    ensures var t := DailyStepped(s, a, step); Local(s, t, HeldImage(t.workers[a]), HeldPath(t.workers[a]))
  {
  }

  lemma Sparing(s: State, a: Actor, step: DailyStep)
    requires Facts(s, a) && RowsFine(s) && DiskFine(s) && DailyEnabled(s, a, step)
    ensures Spares(s, DailyStepped(s, a, step), a)
  {
  }

  lemma Tidying(s: State, a: Actor, step: DailyStep)
    requires Facts(s, a) && StoresFine(s) && DailyEnabled(s, a, step)
    ensures var t := DailyStepped(s, a, step); Tidy(s, t, HeldImage(t.workers[a]))
  {
  }

  lemma Landing(s: State, a: Actor, step: DailyStep)
    requires Facts(s, a) && RowsFine(s) && DiskFine(s) && DailyEnabled(s, a, step)
    ensures Lands(s, DailyStepped(s, a, step), a)
  {
  }

  lemma Kept(s: State, a: Actor, step: DailyStep)
    requires Inv(s) && DailyEnabled(s, a, step)
    ensures Inv(DailyStepped(s, a, step))
  {
    FactsOf(s, a);
    Moving(s, a, step);
    Staying(s, a, step);
    Sparing(s, a, step);
    Tidying(s, a, step);
    Landing(s, a, step);
    Locking.AdvanceKeepsLocked(s.workers, s.locks, a, DailyStepped(s, a, step).workers[a]);
    InvAfterMove(s, DailyStepped(s, a, step), a);
  }
}
