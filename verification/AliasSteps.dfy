/** Creating and deleting an alias: every step keeps the invariant. */
module AliasSteps {
  import opened Base
  import opened Delivery
  import opened Loader
  import opened Protocol
  import opened Invariant
  import opened Frames
  import Locking

  lemma Moving(s: State, a: Actor, step: AliasStep)
    requires Facts(s, a) && AliasRowsFine(s) && AliasEnabled(s, a, step)
    ensures var t := AliasStepped(s, a, step); Moves(s, t, a) && Locking.Advances(s.workers[a], t.workers[a])
  {
  }

  lemma Staying(s: State, a: Actor, step: AliasStep)
    requires Facts(s, a) && AliasRowsFine(s) && AliasEnabled(s, a, step)
    ensures var t := AliasStepped(s, a, step); Local(s, t, HeldImage(t.workers[a]), HeldPath(t.workers[a]))
  {
  }

  lemma Sparing(s: State, a: Actor, step: AliasStep)
    requires Facts(s, a) && AliasEnabled(s, a, step)
    ensures Spares(s, AliasStepped(s, a, step), a)
  {
  }

  lemma Tidying(s: State, a: Actor, step: AliasStep)
    requires Facts(s, a) && StoresFine(s) && AliasEnabled(s, a, step)
    ensures var t := AliasStepped(s, a, step); Tidy(s, t, HeldImage(t.workers[a]))
  {
  }

  lemma Landing(s: State, a: Actor, step: AliasStep)
    requires Facts(s, a) && AliasRowsFine(s) && AliasEnabled(s, a, step)
    ensures Lands(s, AliasStepped(s, a, step), a)
  {
  }

  lemma Kept(s: State, a: Actor, step: AliasStep)
    requires Inv(s) && AliasEnabled(s, a, step)
    ensures Inv(AliasStepped(s, a, step))
  {
    FactsOf(s, a);
    Moving(s, a, step);
    Staying(s, a, step);
    Sparing(s, a, step);
    Tidying(s, a, step);
    Landing(s, a, step);
    Locking.AdvanceKeepsLocked(s.workers, s.locks, a, AliasStepped(s, a, step).workers[a]);
    InvAfterMove(s, AliasStepped(s, a, step), a);
  }
}
