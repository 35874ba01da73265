/** Index rebuilds: every step keeps the invariant. */
module RebuildSteps {
  import opened Base
  import opened Delivery
  import opened Loader
  import opened Protocol
  import opened Invariant
  import opened Frames
  import Locking
  import AliasPath

  lemma Moving(s: State, a: Actor, step: RebuildStep)
    requires Facts(s, a) && RebuildEnabled(s, a, step) && !step.Swap?
    ensures var t := RebuildStepped(s, a, step); Moves(s, t, a) && Locking.Advances(s.workers[a], t.workers[a])
  {
  }

  lemma Staying(s: State, a: Actor, step: RebuildStep)
    requires Facts(s, a) && RebuildEnabled(s, a, step) && !step.Swap?
    ensures var t := RebuildStepped(s, a, step); Local(s, t, HeldImage(t.workers[a]), HeldPath(t.workers[a]))
  {
  }

  lemma Sparing(s: State, a: Actor, step: RebuildStep)
    requires Facts(s, a) && RebuildEnabled(s, a, step) && !step.Swap?
    ensures Spares(s, RebuildStepped(s, a, step), a)
  {
  }

  lemma Tidying(s: State, a: Actor, step: RebuildStep)
    requires Facts(s, a) && StoresFine(s) && RebuildEnabled(s, a, step) && !step.Swap?
    ensures var t := RebuildStepped(s, a, step); Tidy(s, t, HeldImage(t.workers[a]))
  {
  }

  lemma OneMoreChecked(db: Database, todo: map<Uuid, Row>, targets: map<Uuid, Target>, id: Uuid)
    requires RebuildFine(db, Checking(todo, targets)) && id in todo
    ensures RebuildFine(db, Checking(todo - {id}, targets[id := Rebuilt(todo[id])]))
  {
  }

  lemma AllChecked(db: Database, targets: map<Uuid, Target>)
    requires RebuildFine(db, Checking(map[], targets))
    ensures targets == AllTargets(db.rows)
  {
  }

  lemma Landing(s: State, a: Actor, step: RebuildStep)
    requires Facts(s, a) && RowsFine(s) && RebuildEnabled(s, a, step) && !step.Swap?
    ensures Lands(s, RebuildStepped(s, a, step), a)
  {
    var b := s.workers[a].job.build;
    match step
    case ReadRows =>
    case CheckFile(id) =>
      assert RowFine(s, id);
      OneMoreChecked(s.db, b.todo, b.targets, id);
    case ReadAliases => AllChecked(s.db, b.targets);
  }

  lemma Kept(s: State, a: Actor, step: RebuildStep)
    requires Inv(s) && RebuildEnabled(s, a, step) && !step.Swap?
    ensures Inv(RebuildStepped(s, a, step))
  {
    FactsOf(s, a);
    Moving(s, a, step);
    Staying(s, a, step);
    Sparing(s, a, step);
    Tidying(s, a, step);
    Landing(s, a, step);
    Locking.AdvanceKeepsLocked(s.workers, s.locks, a, RebuildStepped(s, a, step).workers[a]);
    InvAfterMove(s, RebuildStepped(s, a, step), a);
  }

  predicate Complete(s: State, t: State) {
    t.index == View(AllTargets(s.db.rows), BuildAliases(s.db.aliases, AllTargets(s.db.rows)))
  }

  /** With nobody inside the shared barrier, an index built from all rows agrees with them. */
  lemma CompleteImages(s: State, t: State)
    requires Locking.Locked(s.workers, s.locks) && s.locks.readers == {}
    requires forall id :: ImageFine(s, id)
    requires t.db == s.db && t.locks == s.locks && Complete(s, t)
    requires forall a :: a in s.workers ==> a in t.workers && (t.workers[a] == s.workers[a] || ImageOf(s.workers[a].job).None?)
    ensures forall id :: ImageFine(t, id)
  {
    forall id: Uuid ensures ImageFine(t, id) {
      assert ImageFine(s, id);
      if id in s.db.rows { UnixOfFromUnix(ModifiedSecond(s.db.rows[id])); }
    }
  }

  lemma CompleteAliases(s: State, t: State)
    requires Locking.Locked(s.workers, s.locks) && s.locks.readers == {} && AliasRowsFine(s)
    requires AliasPath.ROOT !in s.db.aliases
    requires t.db == s.db && t.locks == s.locks && Complete(s, t)
    requires forall a :: a in s.workers ==> a in t.workers && (t.workers[a] == s.workers[a] || PathOf(s.workers[a].job).None?)
    ensures forall p :: AliasFine(t, p)
  {
    forall p ensures AliasFine(t, p) {
      if p in s.db.aliases {
        assert AliasRowFine(s, p);
      }
    }
  }

  lemma CompleteTargets(s: State, t: State)
    requires RowsFine(s) && t.disk == s.disk && t.past == s.past && Complete(s, t)
    ensures TargetsFine(t)
  {
    forall id | id in t.index.byID ensures TargetFine(t, id) { assert RowFine(s, id); }
  }

  lemma SwapFacts(s: State, a: Actor)
    requires Facts(s, a) && RebuildEnabled(s, a, Swap)
    ensures var t := RebuildStepped(s, a, Swap);
      && Complete(s, t) && Spares(s, t, a) && Moves(s, t, a) && Locking.Advances(s.workers[a], t.workers[a])
      && s.locks.writer == Some(a)
  {
  }

  /** Swapping in the index that was built under the exclusive barrier. */
  lemma SwapKept(s: State, a: Actor)
    requires Inv(s) && RebuildEnabled(s, a, Swap)
    ensures Inv(RebuildStepped(s, a, Swap))
  {
    var t := RebuildStepped(s, a, Swap);
    FactsOf(s, a);
    SwapFacts(s, a);
    CompleteImages(s, t);
    NoRootStored(s);
    CompleteAliases(s, t);
    CompleteTargets(s, t);
    Locking.AdvanceKeepsLocked(s.workers, s.locks, a, t.workers[a]);
    WorkersAfterMove(s, t, a);
  }
}
