/** What each operation has achieved, in rows and index alike, when it has written the index. */
module Effects {
  import opened Base
  import opened Delivery
  import opened Loader
  import opened Protocol
  import opened Invariant
  import opened Frames

  /** An image is stored as `row` and served accordingly. */
  predicate StoredAndServed(s: State, id: Uuid, row: Row) {
    Lookup(s.db.rows, id) == Some(row) && id in s.index.byID && Agrees(s.index.byID[id], row)
  }

  predicate AliasStoredAndServed(s: State, p: Path, id: Uuid) {
    p in s.db.aliases && s.db.aliases[p].image == id && Lookup(s.index.aliases, p) == Some(id) && id in s.index.byID
  }

  /** No row, no target, and no alias of the image anywhere. */
  predicate Erased(s: State, id: Uuid) {
    && id !in s.db.rows && id !in s.index.byID
    && (forall p :: p in s.db.aliases ==> s.db.aliases[p].image != id)
    && (forall p :: p in s.index.aliases ==> s.index.aliases[p] != id)
  }

  lemma PublishEffect(s: State, a: Actor)
    requires Inv(s) && PublishEnabled(s, a, ShowTarget)
    ensures StoredAndServed(PublishStepped(s, a, ShowTarget), s.workers[a].job.d.id, s.workers[a].job.d.row)
  {
    FactsOf(s, a);
  }

  lemma ImportShown(s: State, a: Actor)
    requires Facts(s, a) && PublishEnabled(s, a, ShowAlias)
    ensures var d := s.workers[a].job.d;
      StoredAndServed(PublishStepped(s, a, ShowAlias), d.id, d.row)
    ensures var d := s.workers[a].job.d;
      AliasStoredAndServed(PublishStepped(s, a, ShowAlias), d.alias.value.path, d.id)
  {
  }

  lemma ImportEffect(s: State, a: Actor)
    requires Inv(s) && PublishEnabled(s, a, ShowAlias)
    ensures var d := s.workers[a].job.d;
      var t := PublishStepped(s, a, ShowAlias);
      StoredAndServed(t, d.id, d.row) && AliasStoredAndServed(t, d.alias.value.path, d.id)
  {
    FactsOf(s, a);
    ImportShown(s, a);
  }

  lemma DeleteEffect(s: State, a: Actor)
    requires Inv(s) && RemoveEnabled(s, a, HideTarget)
    ensures Erased(RemoveStepped(s, a, HideTarget), s.workers[a].job.image)
  {
    FactsOf(s, a);
    assert forall p :: p in s.db.aliases ==> AliasRowFine(s, p);
  }

  lemma VisibilityEffect(s: State, a: Actor)
    requires Inv(s) && VisibilityEnabled(s, a, UpdateTarget)
    ensures var SetVisibility(id, v, _) := s.workers[a].job;
      var t := VisibilityStepped(s, a, UpdateTarget);
      id in t.db.rows && t.db.rows[id].visibility == v && StoredAndServed(t, id, t.db.rows[id])
  {
    FactsOf(s, a);
  }

  lemma ConvertEffect(s: State, a: Actor)
    requires Inv(s) && ConvertEnabled(s, a, ReplaceTarget)
    ensures StoredAndServed(ConvertStepped(s, a, ReplaceTarget), s.workers[a].job.image, s.workers[a].job.conv.c.after)
  {
    FactsOf(s, a);
  }

  lemma AliasEffect(s: State, a: Actor)
    requires Inv(s) && AliasEnabled(s, a, PublishAlias)
    ensures AliasStoredAndServed(AliasStepped(s, a, PublishAlias), s.workers[a].job.alias.path, s.workers[a].job.image)
  {
    var id := s.workers[a].job.image;
    FactsOf(s, a);
    assert AliasRowFine(s, s.workers[a].job.alias.path);
    assert ImageFine(s, id);
  }

  lemma AliasHidden(s: State, a: Actor)
    requires Facts(s, a) && AliasEnabled(s, a, HideAlias)
    ensures s.workers[a].job.drop.path !in AliasStepped(s, a, HideAlias).db.aliases
    ensures s.workers[a].job.drop.path !in AliasStepped(s, a, HideAlias).index.aliases
  {
  }

  lemma DropEffect(s: State, a: Actor)
    requires Inv(s) && AliasEnabled(s, a, HideAlias)
    ensures var t := AliasStepped(s, a, HideAlias);
      s.workers[a].job.drop.path !in t.db.aliases && s.workers[a].job.drop.path !in t.index.aliases
  {
    FactsOf(s, a);
    AliasHidden(s, a);
  }
}
