/**
 What each operation on images does when no other one holds a lock: from every reachable state of
 that kind its steps can be taken, one after the other, and end in exactly the stated rows, files,
 thumbnails and index, with every lock given back.
 */
module ImageRequests {
  import opened Base
  import opened Delivery
  import opened Loader
  import opened Protocol
  import opened Invariant
  import opened Requests
  import Runs

  // ---------------------------------------------------------------- uploads and imports

  /** `m` is when the thumbnail was written, if the engine made one. */
  function PublishSteps(a: Actor, d: Draft, m: Option<Instant>): seq<Event> {
    [Start(a, Publish(d, Staged)), OfPublish(a, CommitFile)] + if m.Some? then [OfPublish(a, PutThumb(m.value))] else []
  }

  function EndSteps(a: Actor, d: Draft): seq<Event> {
    (if d.alias.Some? then [OfPublish(a, ShowAlias)] else []) + [Finish(a)]
  }

  function PublishEvents(a: Actor, d: Draft, m: Option<Instant>): seq<Event> {
    PublishSteps(a, d, m)
    + (LocksOf(a, Publish(d, Filed)) + ([OfPublish(a, InsertRows), OfPublish(a, ShowTarget)] + EndSteps(a, d)))
  }

  function ThumbsWith(thumbs: map<Uuid, Instant>, id: Uuid, m: Option<Instant>): map<Uuid, Instant> {
    if m.Some? then thumbs[id := m.value] else thumbs
  }

  /** The files are written before any lock is taken. */
  function Written(s: State, a: Actor, d: Draft, m: Option<Instant>): State {
    s.(disk := Disk(s.disk.files[d.id := File(d.row.size, d.written)], ThumbsWith(s.disk.thumbs, d.id, m)),
       past := Issued(s.past, a, Publish(d, Staged)))
  }

  function Inserted(s: State, d: Draft): State {
    s.(db := Database(s.db.rows[d.id := d.row],
                      if d.alias.Some? then s.db.aliases[d.alias.value.path := AliasRow(d.alias.value.id, d.id)] else s.db.aliases),
       past := s.past.(born := s.past.born + {d.id}))
  }

  function Shown(s: State, d: Draft): State { s.(index := s.index.(byID := s.index.byID[d.id := Published(d.row, d.at)])) }

  function AliasShownToo(s: State, d: Draft): State {
    if d.alias.Some? then s.(index := s.index.(aliases := s.index.aliases[d.alias.value.path := d.id])) else s
  }

  function Filing(s: State, a: Actor, d: Draft): State { Written(s, a, d, None) }

  lemma FileRuns(s: State, a: Actor, d: Draft)
    requires Free(s) && a !in s.workers && MayStart(s, Publish(d, Staged)) && d.id !in s.disk.files
    ensures Run(s, PublishSteps(a, d, None)) == Some(Having(Filing(s, a, d), a, Publish(d, Filed), NoLocks))
  {
    var e := PublishSteps(a, d, None);
    var issued := s.(past := Issued(s.past, a, Publish(d, Staged)));
    Starts(s, a, Publish(d, Staged));
    Goes(issued, a, Publish(d, Staged), NoLocks, Publish(d, Filed));
    Runs.TraceRuns(Next, [s, Having(issued, a, Publish(d, Staged), NoLocks), Having(Filing(s, a, d), a, Publish(d, Filed), NoLocks)], e);
  }

  lemma PublishWrites(s: State, a: Actor, d: Draft, m: Option<Instant>)
    requires Free(s) && a !in s.workers && MayStart(s, Publish(d, Staged)) && d.id !in s.disk.files
    requires m.Some? ==> d.written <= m.value <= s.clock
    ensures Run(s, PublishSteps(a, d, m)) == Some(Having(Written(s, a, d, m), a, Publish(d, Filed), NoLocks))
  {
    FileRuns(s, a, d);
    if m.Some? {
      var thumb := [OfPublish(a, PutThumb(m.value))];
      var filed, done := Having(Filing(s, a, d), a, Publish(d, Filed), NoLocks), Having(Written(s, a, d, m), a, Publish(d, Filed), NoLocks);
      assert PublishSteps(a, d, m) == PublishSteps(a, d, None) + thumb;
      assert Next(filed, thumb[0]) == Some(done);
      Runs.TraceRuns(Next, [filed, done], thumb);
      Runs.RunAppend(Next, s, PublishSteps(a, d, None), thumb);
    }
  }

  lemma InsertStep(s: State, a: Actor, d: Draft, h: Held)
    requires InTime(s, d.written) && h.barrier
    requires d.id !in s.db.rows && KeyUnused(s.db.rows, d.id) && (d.alias.Some? ==> d.alias.value.path !in s.db.aliases)
    ensures Next(Having(s, a, Publish(d, Filed), h), OfPublish(a, InsertRows)) == Some(Having(Inserted(s, d), a, Publish(d, PublishPhase.Inserted), h))
  {
    Goes(s, a, Publish(d, Filed), h, Publish(d, PublishPhase.Inserted));
  }

  lemma ShowStep(s: State, a: Actor, d: Draft, h: Held)
    ensures Next(Having(s, a, Publish(d, PublishPhase.Inserted), h), OfPublish(a, ShowTarget)) == Some(Having(Shown(s, d), a, Publish(d, Listed), h))
  {
    Goes(s, a, Publish(d, PublishPhase.Inserted), h, Publish(d, Listed));
  }

  lemma ShowAliasStep(s: State, a: Actor, d: Draft, h: Held)
    requires d.alias.Some? && d.id in s.index.byID
    ensures Next(Having(s, a, Publish(d, Listed), h), OfPublish(a, ShowAlias)) == Some(Having(AliasShownToo(s, d), a, Publish(d, Announced), h))
  {
    Goes(s, a, Publish(d, Listed), h, Publish(d, Announced));
  }

  lemma PublishShows(s: State, a: Actor, d: Draft)
    requires InTime(s, d.written)
    requires d.id !in s.db.rows && KeyUnused(s.db.rows, d.id) && (d.alias.Some? ==> d.alias.value.path !in s.db.aliases)
    ensures var h := AllLocks(Publish(d, Filed));
      Run(Having(s, a, Publish(d, Filed), h), [OfPublish(a, InsertRows), OfPublish(a, ShowTarget)])
      == Some(Having(Shown(Inserted(s, d), d), a, Publish(d, Listed), h))
  {
    var h := AllLocks(Publish(d, Filed));
    var s1 := Inserted(s, d);
    InsertStep(s, a, d, h);
    ShowStep(s1, a, d, h);
    Runs.TraceRuns(Next, [Having(s, a, Publish(d, Filed), h), Having(s1, a, Publish(d, PublishPhase.Inserted), h),
                          Having(Shown(s1, d), a, Publish(d, Listed), h)],
                   [OfPublish(a, InsertRows), OfPublish(a, ShowTarget)]);
  }

  lemma PublishEnds(s: State, a: Actor, d: Draft, h: Held)
    requires a !in s.workers && d.id in s.index.byID
    ensures Run(Having(s, a, Publish(d, Listed), h), EndSteps(a, d)) == Some(AliasShownToo(s, d).(locks := FREE))
  {
    var t := AliasShownToo(s, d);
    if d.alias.Some? {
      ShowAliasStep(s, a, d, h);
      Returns(t, a, Publish(d, Announced), h);
      Runs.TraceRuns(Next, [Having(s, a, Publish(d, Listed), h), Having(t, a, Publish(d, Announced), h), t.(locks := FREE)], EndSteps(a, d));
    } else {
      Returns(s, a, Publish(d, Listed), h);
      Runs.TraceRuns(Next, [Having(s, a, Publish(d, Listed), h), t.(locks := FREE)], EndSteps(a, d));
    }
  }

  /** Fresh keys are unused. */
  lemma FreshKey(s: State, k: Uuid)
    requires Inv(s) && k !in s.past.keys
    ensures k !in s.disk.files && k !in s.disk.thumbs && k !in s.db.rows && KeyUnused(s.db.rows, k)
  {
    forall id | id in s.db.rows ensures s.db.rows[id].key != k && id != k { assert RowFine(s, id); }
  }

  /**
   An upload or import adds one row, one file, at most one thumbnail and one target, the target with the
   instant of the request; an import also adds its alias, to rows and index.
   */
  lemma PublishAlone(s: State, a: Actor, d: Draft, m: Option<Instant>)
    requires Inv(s) && Free(s) && a !in s.workers && MayStart(s, Publish(d, Staged))
    requires s.clock < d.written + 86_400_000_000_000 && (m.Some? ==> d.written <= m.value <= s.clock)
    requires d.alias.Some? ==> d.alias.value.path !in s.db.aliases
    ensures Run(s, PublishEvents(a, d, m)).Some?
    ensures var t := Run(s, PublishEvents(a, d, m)).value;
      && Ends(s, t)
      && t.db.rows == s.db.rows[d.id := d.row]
      && t.disk == Disk(s.disk.files[d.id := File(d.row.size, d.written)],
                        if m.Some? then s.disk.thumbs[d.id := m.value] else s.disk.thumbs)
      && t.index.byID == s.index.byID[d.id :=
           Target(d.id, d.row.mime, d.row.hash, d.row.size, d.at, d.row.visibility, d.row.name)]
      && t.db.aliases == (if d.alias.Some? then s.db.aliases[d.alias.value.path := AliasRow(d.alias.value.id, d.id)] else s.db.aliases)
      && t.index.aliases == (if d.alias.Some? then s.index.aliases[d.alias.value.path := d.id] else s.index.aliases)
  {
    FreshKey(s, d.id);
    var w := Written(s, a, d, m);
    var h := AllLocks(Publish(d, Filed));
    PublishWrites(s, a, d, m);
    Locks(w, a, Publish(d, Filed));
    PublishShows(w, a, d);
    PublishEnds(Shown(Inserted(w, d), d), a, d, h);
    var show := [OfPublish(a, InsertRows), OfPublish(a, ShowTarget)];
    Runs.RunAppend(Next, s, PublishSteps(a, d, m), LocksOf(a, Publish(d, Filed)) + (show + EndSteps(a, d)));
    Runs.RunAppend(Next, Having(w, a, Publish(d, Filed), NoLocks), LocksOf(a, Publish(d, Filed)), show + EndSteps(a, d));
    Runs.RunAppend(Next, Having(w, a, Publish(d, Filed), h), show, EndSteps(a, d));
  }

  // ---------------------------------------------------------------- deletion

  function DeleteSteps(a: Actor): seq<Event> { [OfRemove(a, DeleteRow), OfRemove(a, HideTarget), OfRemove(a, LeaveShared)] }

  function CleanSteps(a: Actor): seq<Event> { [OfRemove(a, DeleteFile), OfRemove(a, DeleteThumb), Finish(a)] }

  function DeleteEvents(a: Actor, id: Uuid): seq<Event> {
    [Start(a, Remove(id, ToRemove))] + (LocksOf(a, Remove(id, ToRemove)) + (DeleteSteps(a) + CleanSteps(a)))
  }

  function RowErased(s: State, id: Uuid): State {
    s.(db := Database(s.db.rows - {id}, map p | p in s.db.aliases && s.db.aliases[p].image != id :: s.db.aliases[p]))
  }

  function Hidden(s: State, id: Uuid): State { s.(index := s.index.RemoveImage(id)) }

  function FilesErased(s: State, id: Uuid, key: Uuid): State {
    s.(disk := Disk(s.disk.files - {key}, s.disk.thumbs - {id}))
  }

  lemma DeleteRowStep(s: State, a: Actor, id: Uuid, h: Held)
    requires id in s.db.rows && h.barrier
    ensures Next(Having(s, a, Remove(id, ToRemove), h), OfRemove(a, DeleteRow))
         == Some(Having(RowErased(s, id), a, Remove(id, RowGone(s.db.rows[id].key)), h))
  {
    Goes(s, a, Remove(id, ToRemove), h, Remove(id, RowGone(s.db.rows[id].key)));
  }

  lemma HideStep(s: State, a: Actor, id: Uuid, key: Uuid, h: Held)
    ensures Next(Having(s, a, Remove(id, RowGone(key)), h), OfRemove(a, HideTarget))
         == Some(Having(Hidden(s, id), a, Remove(id, TargetGone(key)), h))
  {
    Goes(s, a, Remove(id, RowGone(key)), h, Remove(id, TargetGone(key)));
  }

  lemma DeleteRuns(s: State, a: Actor, id: Uuid, h: Held)
    requires id in s.db.rows && h.barrier
    ensures Run(Having(s, a, Remove(id, ToRemove), h), DeleteSteps(a))
         == Some(Having(Hidden(RowErased(s, id), id), a, Remove(id, TargetGone(s.db.rows[id].key)), h.(barrier := false)))
  {
    var key := s.db.rows[id].key;
    var s1 := RowErased(s, id);
    var s2 := Hidden(s1, id);
    var gone := Remove(id, TargetGone(key));
    DeleteRowStep(s, a, id, h);
    HideStep(s1, a, id, key, h);
    Leaves(s2, a, gone, h);
    Runs.TraceRuns(Next, [Having(s, a, Remove(id, ToRemove), h), Having(s1, a, Remove(id, RowGone(key)), h), Having(s2, a, gone, h),
                          Having(s2, a, gone, h.(barrier := false))], DeleteSteps(a));
  }

  lemma CleanDisk(s: State, a: Actor, id: Uuid, key: Uuid, h: Held)
    requires !h.barrier
    ensures var s1 := s.(disk := s.disk.(files := s.disk.files - {key}));
      var job := Remove(id, TargetGone(key));
      && Next(Having(s, a, job, h), OfRemove(a, DeleteFile)) == Some(Having(s1, a, job, h))
      && Next(Having(s1, a, job, h), OfRemove(a, DeleteThumb)) == Some(Having(FilesErased(s, id, key), a, job, h))
  {
  }

  lemma CleanRuns(s: State, a: Actor, id: Uuid, key: Uuid, h: Held)
    requires a !in s.workers && !h.barrier
    ensures Run(Having(s, a, Remove(id, TargetGone(key)), h), CleanSteps(a)) == Some(FilesErased(s, id, key).(locks := FREE))
  {
    var gone := Remove(id, TargetGone(key));
    var s1 := s.(disk := s.disk.(files := s.disk.files - {key}));
    var s2 := FilesErased(s, id, key);
    CleanDisk(s, a, id, key, h);
    Returns(s2, a, gone, h);
    Runs.TraceRuns(Next, [Having(s, a, gone, h), Having(s1, a, gone, h), Having(s2, a, gone, h), s2.(locks := FREE)], CleanSteps(a));
  }

  /** A deletion takes away the row with its alias rows, the target with its aliases, the file and the thumbnail. */
  lemma DeleteAlone(s: State, a: Actor, id: Uuid)
    requires Free(s) && a !in s.workers && id in s.db.rows
    ensures Run(s, DeleteEvents(a, id)).Some?
    ensures var t := Run(s, DeleteEvents(a, id)).value;
      && Ends(s, t)
      && t.db.rows == s.db.rows - {id}
      && t.db.aliases == (map p | p in s.db.aliases && s.db.aliases[p].image != id :: s.db.aliases[p])
      && t.disk == Disk(s.disk.files - {s.db.rows[id].key}, s.disk.thumbs - {id})
      && t.index.byID == s.index.byID - {id}
      && t.index.aliases == (map p | p in s.index.aliases && s.index.aliases[p] != id :: s.index.aliases[p])
  {
    var job := Remove(id, ToRemove);
    var h := AllLocks(job);
    var tail := DeleteSteps(a) + CleanSteps(a);
    Starts(s, a, job);
    Locks(s, a, job);
    DeleteRuns(s, a, id, h);
    CleanRuns(Hidden(RowErased(s, id), id), a, id, s.db.rows[id].key, h.(barrier := false));
    Runs.RunAppend(Next, Having(s, a, job, h), DeleteSteps(a), CleanSteps(a));
    Runs.RunAppend(Next, Having(s, a, job, NoLocks), LocksOf(a, job), tail);
    assert DeleteEvents(a, id)[1..] == LocksOf(a, job) + tail;
  }

  // ---------------------------------------------------------------- visibility

  function VisibilityEvents(a: Actor, id: Uuid, v: Visibility): seq<Event> {
    [Start(a, SetVisibility(id, v, ToSet))]
    + (LocksOf(a, SetVisibility(id, v, ToSet)) + [OfVisibility(a, UpdateRow), OfVisibility(a, UpdateTarget), Finish(a)])
  }

  function RowChanged(s: State, id: Uuid, row: Row): State { s.(db := s.db.(rows := s.db.rows[id := row])) }

  function TargetChanged(s: State, id: Uuid, target: Target): State {
    s.(index := s.index.(byID := s.index.byID[id := target]))
  }

  lemma VisibilityRuns(s: State, a: Actor, id: Uuid, v: Visibility, h: Held)
    requires a !in s.workers && id in s.db.rows && id in s.index.byID && h.barrier
    ensures Run(Having(s, a, SetVisibility(id, v, ToSet), h), [OfVisibility(a, UpdateRow), OfVisibility(a, UpdateTarget), Finish(a)])
         == Some(TargetChanged(RowChanged(s, id, s.db.rows[id].(visibility := v)), id, s.index.byID[id].(visibility := v)).(locks := FREE))
  {
    var s1 := RowChanged(s, id, s.db.rows[id].(visibility := v));
    var s2 := TargetChanged(s1, id, s.index.byID[id].(visibility := v));
    Goes(s, a, SetVisibility(id, v, ToSet), h, SetVisibility(id, v, RowSet));
    Goes(s1, a, SetVisibility(id, v, RowSet), h, SetVisibility(id, v, TargetSet));
    Returns(s2, a, SetVisibility(id, v, TargetSet), h);
    Runs.TraceRuns(Next, [Having(s, a, SetVisibility(id, v, ToSet), h), Having(s1, a, SetVisibility(id, v, RowSet), h),
                          Having(s2, a, SetVisibility(id, v, TargetSet), h), s2.(locks := FREE)],
                   [OfVisibility(a, UpdateRow), OfVisibility(a, UpdateTarget), Finish(a)]);
  }

  /** Whatever is stored is served when nobody holds a lock. */
  lemma StoredIsServed(s: State, id: Uuid)
    requires Inv(s) && Free(s) && id in s.db.rows
    ensures id in s.index.byID
  {
    assert ImageFine(s, id);
  }

  /** A visibility change sets one field of the row and one of the target. */
  lemma VisibilityAlone(s: State, a: Actor, id: Uuid, v: Visibility)
    requires Inv(s) && Free(s) && a !in s.workers && id in s.db.rows
    ensures id in s.index.byID && Run(s, VisibilityEvents(a, id, v)).Some?
    ensures var t := Run(s, VisibilityEvents(a, id, v)).value;
      && Ends(s, t) && t.disk == s.disk && t.db.aliases == s.db.aliases && t.index.aliases == s.index.aliases
      && t.db.rows == s.db.rows[id := s.db.rows[id].(visibility := v)]
      && t.index.byID == s.index.byID[id := s.index.byID[id].(visibility := v)]
  {
    var job := SetVisibility(id, v, ToSet);
    var rest := [OfVisibility(a, UpdateRow), OfVisibility(a, UpdateTarget), Finish(a)];
    StoredIsServed(s, id);
    Starts(s, a, job);
    Locks(s, a, job);
    VisibilityRuns(s, a, id, v, AllLocks(job));
    Runs.RunAppend(Next, Having(s, a, job, NoLocks), LocksOf(a, job), rest);
    assert VisibilityEvents(a, id, v)[1..] == LocksOf(a, job) + rest;
  }

  // ---------------------------------------------------------------- aliases

  function AddEvents(a: Actor, id: Uuid, n: NewAlias): seq<Event> {
    [Start(a, AddAlias(id, n, ToAdd))]
    + (LocksOf(a, AddAlias(id, n, ToAdd)) + [OfAlias(a, StoreAlias), OfAlias(a, PublishAlias), Finish(a)])
  }

  function AliasesChanged(s: State, rows: map<Path, AliasRow>, shown: map<Path, Uuid>): State {
    s.(db := s.db.(aliases := rows), index := s.index.(aliases := shown))
  }

  lemma StoreAliasStep(s: State, a: Actor, id: Uuid, n: NewAlias, h: Held)
    requires id in s.db.rows && n.path !in s.db.aliases && h.barrier
    ensures Next(Having(s, a, AddAlias(id, n, ToAdd), h), OfAlias(a, StoreAlias))
         == Some(Having(AliasesChanged(s, s.db.aliases[n.path := AliasRow(n.id, id)], s.index.aliases), a, AddAlias(id, n, AliasStored), h))
  {
    Goes(s, a, AddAlias(id, n, ToAdd), h, AddAlias(id, n, AliasStored));
  }

  lemma AddRuns(s: State, a: Actor, id: Uuid, n: NewAlias, h: Held)
    requires a !in s.workers && id in s.db.rows && id in s.index.byID && n.path !in s.db.aliases && h.barrier
    ensures Run(Having(s, a, AddAlias(id, n, ToAdd), h), [OfAlias(a, StoreAlias), OfAlias(a, PublishAlias), Finish(a)])
         == Some(AliasesChanged(s, s.db.aliases[n.path := AliasRow(n.id, id)], s.index.aliases[n.path := id]).(locks := FREE))
  {
    var s1 := AliasesChanged(s, s.db.aliases[n.path := AliasRow(n.id, id)], s.index.aliases);
    var s2 := AliasesChanged(s, s.db.aliases[n.path := AliasRow(n.id, id)], s.index.aliases[n.path := id]);
    StoreAliasStep(s, a, id, n, h);
    Goes(s1, a, AddAlias(id, n, AliasStored), h, AddAlias(id, n, AliasShown));
    Returns(s2, a, AddAlias(id, n, AliasShown), h);
    Runs.TraceRuns(Next, [Having(s, a, AddAlias(id, n, ToAdd), h), Having(s1, a, AddAlias(id, n, AliasStored), h),
                          Having(s2, a, AddAlias(id, n, AliasShown), h), s2.(locks := FREE)],
                   [OfAlias(a, StoreAlias), OfAlias(a, PublishAlias), Finish(a)]);
  }

  /** A new alias of a stored image is stored and served. */
  lemma AddAliasAlone(s: State, a: Actor, id: Uuid, n: NewAlias)
    requires Inv(s) && Free(s) && a !in s.workers && MayStart(s, AddAlias(id, n, ToAdd))
    requires id in s.db.rows && n.path !in s.db.aliases
    ensures Run(s, AddEvents(a, id, n)).Some?
    ensures var t := Run(s, AddEvents(a, id, n)).value;
      && Ends(s, t) && t.disk == s.disk && t.db.rows == s.db.rows && t.index.byID == s.index.byID
      && t.db.aliases == s.db.aliases[n.path := AliasRow(n.id, id)]
      && t.index.aliases == s.index.aliases[n.path := id]
  {
    var job := AddAlias(id, n, ToAdd);
    var rest := [OfAlias(a, StoreAlias), OfAlias(a, PublishAlias), Finish(a)];
    var issued := s.(past := Issued(s.past, a, job));
    StoredIsServed(s, id);
    Starts(s, a, job);
    Locks(issued, a, job);
    AddRuns(issued, a, id, n, AllLocks(job));
    Runs.RunAppend(Next, Having(issued, a, job, NoLocks), LocksOf(a, job), rest);
    assert AddEvents(a, id, n)[1..] == LocksOf(a, job) + rest;
  }

  function DropEvents(a: Actor, aliasId: Uuid, p: Path): seq<Event> {
    [Start(a, DropAlias(aliasId, ToFind)), OfAlias(a, FindAlias(p))]
    + (LocksOf(a, DropAlias(aliasId, Found(p))) + [OfAlias(a, DeleteAlias(p)), OfAlias(a, HideAlias), Finish(a)])
  }

  lemma DeleteAliasStep(s: State, a: Actor, aliasId: Uuid, p: Path, h: Held)
    requires p in s.db.aliases && s.db.aliases[p].id == aliasId && h.barrier
    ensures Next(Having(s, a, DropAlias(aliasId, Found(p)), h), OfAlias(a, DeleteAlias(p)))
         == Some(Having(AliasesChanged(s, s.db.aliases - {p}, s.index.aliases), a, DropAlias(aliasId, AliasGone(p)), h))
  {
    Goes(s, a, DropAlias(aliasId, Found(p)), h, DropAlias(aliasId, AliasGone(p)));
  }

  lemma HideAliasStep(s: State, a: Actor, aliasId: Uuid, p: Path, h: Held)
    ensures Next(Having(s, a, DropAlias(aliasId, AliasGone(p)), h), OfAlias(a, HideAlias))
         == Some(Having(AliasesChanged(s, s.db.aliases, s.index.aliases - {p}), a, DropAlias(aliasId, AliasHidden(p)), h))
  {
    Goes(s, a, DropAlias(aliasId, AliasGone(p)), h, DropAlias(aliasId, AliasHidden(p)));
  }

  lemma DropRuns(s: State, a: Actor, aliasId: Uuid, p: Path, h: Held)
    requires a !in s.workers && p in s.db.aliases && s.db.aliases[p].id == aliasId && h.barrier
    ensures Run(Having(s, a, DropAlias(aliasId, Found(p)), h), [OfAlias(a, DeleteAlias(p)), OfAlias(a, HideAlias), Finish(a)])
         == Some(AliasesChanged(s, s.db.aliases - {p}, s.index.aliases - {p}).(locks := FREE))
  {
    var s1 := AliasesChanged(s, s.db.aliases - {p}, s.index.aliases);
    var s2 := AliasesChanged(s, s.db.aliases - {p}, s.index.aliases - {p});
    DeleteAliasStep(s, a, aliasId, p, h);
    HideAliasStep(s1, a, aliasId, p, h);
    Returns(s2, a, DropAlias(aliasId, AliasHidden(p)), h);
    Runs.TraceRuns(Next, [Having(s, a, DropAlias(aliasId, Found(p)), h), Having(s1, a, DropAlias(aliasId, AliasGone(p)), h),
                          Having(s2, a, DropAlias(aliasId, AliasHidden(p)), h), s2.(locks := FREE)],
                   [OfAlias(a, DeleteAlias(p)), OfAlias(a, HideAlias), Finish(a)]);
  }

  /** A deleted alias is neither stored nor served, and no other one is touched. */
  lemma DropAliasAlone(s: State, a: Actor, aliasId: Uuid, p: Path)
    requires Free(s) && a !in s.workers && p in s.db.aliases && s.db.aliases[p].id == aliasId
    ensures Run(s, DropEvents(a, aliasId, p)).Some?
    ensures var t := Run(s, DropEvents(a, aliasId, p)).value;
      && Ends(s, t) && t.disk == s.disk && t.db.rows == s.db.rows && t.index.byID == s.index.byID
      && t.db.aliases == s.db.aliases - {p} && t.index.aliases == s.index.aliases - {p}
  {
    var first, job := DropAlias(aliasId, ToFind), DropAlias(aliasId, Found(p));
    var find := [Start(a, first), OfAlias(a, FindAlias(p))];
    var rest := [OfAlias(a, DeleteAlias(p)), OfAlias(a, HideAlias), Finish(a)];
    Starts(s, a, first);
    Goes(s, a, first, NoLocks, job);
    Runs.TraceRuns(Next, [s, Having(s, a, first, NoLocks), Having(s, a, job, NoLocks)], find);
    Locks(s, a, job);
    DropRuns(s, a, aliasId, p, AllLocks(job));
    Runs.RunAppend(Next, s, find, LocksOf(a, job) + rest);
    Runs.RunAppend(Next, Having(s, a, job, NoLocks), LocksOf(a, job), rest);
  }

  // ---------------------------------------------------------------- conversion

  /** What a conversion may store in place of the row it read. */
  predicate Converts(s: State, id: Uuid, c: Change) {
    && id in s.db.rows && c.before == s.db.rows[id] && c.at == s.clock && c.written == s.clock
    && c.after.key !in s.past.keys && |c.after.hash| == 32
    && c.after.created == c.before.created && c.after.visibility == c.before.visibility
    && c.after.updated == s.clock / 1_000_000_000
  }

  function PrepareSteps(a: Actor, id: Uuid, c: Change): seq<Event> {
    [Start(a, Convert(id, ToConvert)), Lock(a), OfConvert(a, ReadRow), OfConvert(a, WriteFile(c))]
  }

  function ReplaceSteps(a: Actor): seq<Event> { [Lock(a), OfConvert(a, ReplaceRow), OfConvert(a, ReplaceTarget)] }

  /** The new thumbnail of instant `m`, if the engine made one. */
  function ThumbStep(m: Option<Instant>): ConvertStep { if m.Some? then ReplaceThumb(m.value) else ForgetThumb }

  function TidySteps(a: Actor, m: Option<Instant>): seq<Event> {
    [OfConvert(a, LeaveSharedAfter), OfConvert(a, ThumbStep(m)), OfConvert(a, RemoveOldFile), Finish(a)]
  }

  function ConvertEvents(a: Actor, id: Uuid, c: Change, m: Option<Instant>): seq<Event> {
    PrepareSteps(a, id, c) + (ReplaceSteps(a) + TidySteps(a, m))
  }

  function FileWritten(s: State, id: Uuid, c: Change): State {
    s.(disk := s.disk.(files := s.disk.files[c.after.key := File(c.after.size, c.written)]),
       past := s.past.(keys := s.past.keys[c.after.key := KeyInfo(id, c.written)]))
  }

  lemma PrepareRuns(s: State, a: Actor, id: Uuid, c: Change)
    requires Free(s) && a !in s.workers && Converts(s, id, c)
    ensures Run(s, PrepareSteps(a, id, c)) == Some(Having(FileWritten(s, id, c), a, Convert(id, FileReady(c)), Held(true, false, false)))
  {
    var h := Held(true, false, false);
    var first, read, ready := Convert(id, ToConvert), Convert(id, SourceRead(c.before, s.clock)), Convert(id, FileReady(c));
    Starts(s, a, first);
    OneLock(s, a, first, NoLocks);
    ReadStep(s, a, id, h);
    WriteStep(s, a, id, c, h);
    Runs.TraceRuns(Next, [s, Having(s, a, first, NoLocks), Having(s, a, first, h), Having(s, a, read, h),
                          Having(FileWritten(s, id, c), a, ready, h)], PrepareSteps(a, id, c));
  }

  lemma ReadStep(s: State, a: Actor, id: Uuid, h: Held)
    requires id in s.db.rows && h.image
    ensures Next(Having(s, a, Convert(id, ToConvert), h), OfConvert(a, ReadRow))
         == Some(Having(s, a, Convert(id, SourceRead(s.db.rows[id], s.clock)), h))
  {
    Goes(s, a, Convert(id, ToConvert), h, Convert(id, SourceRead(s.db.rows[id], s.clock)));
  }

  lemma WriteStep(s: State, a: Actor, id: Uuid, c: Change, h: Held)
    requires Converts(s, id, c)
    ensures Next(Having(s, a, Convert(id, SourceRead(c.before, s.clock)), h), OfConvert(a, WriteFile(c)))
         == Some(Having(FileWritten(s, id, c), a, Convert(id, FileReady(c)), h))
  {
    Goes(s, a, Convert(id, SourceRead(c.before, s.clock)), h, Convert(id, FileReady(c)));
  }

  lemma ReplaceRowStep(s: State, a: Actor, id: Uuid, c: Change, h: Held)
    requires id in s.db.rows && KeyUnused(s.db.rows, c.after.key) && s.clock < c.written + 86_400_000_000_000 && h.barrier
    requires c.after.created == s.db.rows[id].created && c.after.visibility == s.db.rows[id].visibility
    ensures Next(Having(s, a, Convert(id, FileReady(c)), h), OfConvert(a, ReplaceRow))
         == Some(Having(RowChanged(s, id, c.after), a, Convert(id, RowReplaced(c)), h))
  {
    Goes(s, a, Convert(id, FileReady(c)), h, Convert(id, RowReplaced(c)));
  }

  lemma ReplaceTargetStep(s: State, a: Actor, id: Uuid, c: Change, h: Held)
    ensures Next(Having(s, a, Convert(id, RowReplaced(c)), h), OfConvert(a, ReplaceTarget))
         == Some(Having(TargetChanged(s, id, Published(c.after, c.at)), a, Convert(id, TargetReplaced(c)), h))
  {
    Goes(s, a, Convert(id, RowReplaced(c)), h, Convert(id, TargetReplaced(c)));
  }

  lemma ReplaceRuns(s: State, a: Actor, id: Uuid, c: Change)
    requires id in s.db.rows && KeyUnused(s.db.rows, c.after.key) && s.clock < c.written + 86_400_000_000_000
    requires c.after.created == s.db.rows[id].created && c.after.visibility == s.db.rows[id].visibility
    ensures Run(Having(s, a, Convert(id, FileReady(c)), Held(true, false, false)), ReplaceSteps(a))
         == Some(Having(TargetChanged(RowChanged(s, id, c.after), id, Published(c.after, c.at)),
                        a, Convert(id, TargetReplaced(c)), Held(true, false, true)))
  {
    var h := Held(true, false, true);
    var s1 := RowChanged(s, id, c.after);
    var s2 := TargetChanged(s1, id, Published(c.after, c.at));
    OneLock(s, a, Convert(id, FileReady(c)), Held(true, false, false));
    ReplaceRowStep(s, a, id, c, h);
    ReplaceTargetStep(s1, a, id, c, h);
    Runs.TraceRuns(Next, [Having(s, a, Convert(id, FileReady(c)), Held(true, false, false)), Having(s, a, Convert(id, FileReady(c)), h),
                          Having(s1, a, Convert(id, RowReplaced(c)), h), Having(s2, a, Convert(id, TargetReplaced(c)), h)],
                   ReplaceSteps(a));
  }

  function Tidied(s: State, id: Uuid, c: Change, m: Option<Instant>): State {
    s.(disk := Disk(s.disk.files - {c.before.key}, if m.Some? then s.disk.thumbs[id := m.value] else s.disk.thumbs - {id}))
  }

  lemma LeaveStep(s: State, a: Actor, id: Uuid, c: Change)
    ensures Next(Having(s, a, Convert(id, TargetReplaced(c)), Held(true, false, true)), OfConvert(a, LeaveSharedAfter))
         == Some(Having(s, a, Convert(id, TargetReplaced(c)), Held(true, false, false)))
  {
    Leaves(s, a, Convert(id, TargetReplaced(c)), Held(true, false, true));
  }

  function ThumbTidied(s: State, id: Uuid, m: Option<Instant>): State {
    s.(disk := s.disk.(thumbs := if m.Some? then s.disk.thumbs[id := m.value] else s.disk.thumbs - {id}))
  }

  lemma TidyDisk(s: State, a: Actor, id: Uuid, c: Change, m: Option<Instant>, h: Held)
    requires (m.Some? ==> c.written <= m.value <= s.clock) && !h.barrier
    ensures var s1 := ThumbTidied(s, id, m);
      var job := Convert(id, TargetReplaced(c));
      && Next(Having(s, a, job, h), OfConvert(a, ThumbStep(m))) == Some(Having(s1, a, job, h))
      && Next(Having(s1, a, job, h), OfConvert(a, RemoveOldFile)) == Some(Having(Tidied(s, id, c, m), a, job, h))
  {
  }

  lemma TidyRuns(s: State, a: Actor, id: Uuid, c: Change, m: Option<Instant>)
    requires a !in s.workers && (m.Some? ==> c.written <= m.value <= s.clock)
    ensures Run(Having(s, a, Convert(id, TargetReplaced(c)), Held(true, false, true)), TidySteps(a, m))
         == Some(Tidied(s, id, c, m).(locks := FREE))
  {
    var h := Held(true, false, true);
    var out := Held(true, false, false);
    var job := Convert(id, TargetReplaced(c));
    var s1 := ThumbTidied(s, id, m);
    var s2 := Tidied(s, id, c, m);
    LeaveStep(s, a, id, c);
    TidyDisk(s, a, id, c, m, out);
    Returns(s2, a, job, out);
    Runs.TraceRuns(Next, [Having(s, a, job, h), Having(s, a, job, out), Having(s1, a, job, out), Having(s2, a, job, out),
                          s2.(locks := FREE)], TidySteps(a, m));
  }

  /** A conversion replaces row, file, thumbnail and target by those of the new content; aliases stay. */
  lemma ConvertAlone(s: State, a: Actor, id: Uuid, c: Change, m: Option<Instant>)
    requires Inv(s) && Free(s) && a !in s.workers && Converts(s, id, c) && (m.Some? ==> m.value == s.clock)
    ensures Run(s, ConvertEvents(a, id, c, m)).Some?
    ensures var t := Run(s, ConvertEvents(a, id, c, m)).value;
      && Ends(s, t) && t.db == Database(s.db.rows[id := c.after], s.db.aliases) && t.index.aliases == s.index.aliases
      && t.disk == Disk(s.disk.files[c.after.key := File(c.after.size, s.clock)] - {s.db.rows[id].key},
                        if m.Some? then s.disk.thumbs[id := s.clock] else s.disk.thumbs - {id})
      && t.index.byID == s.index.byID[id :=
           Target(c.after.key, c.after.mime, c.after.hash, c.after.size, s.clock, s.db.rows[id].visibility, c.after.name)]
  {
    FreshKey(s, c.after.key);
    var s1 := FileWritten(s, id, c);
    var s2 := TargetChanged(RowChanged(s1, id, c.after), id, Published(c.after, c.at));
    PrepareRuns(s, a, id, c);
    ReplaceRuns(s1, a, id, c);
    TidyRuns(s2, a, id, c, m);
    Runs.RunAppend(Next, s, PrepareSteps(a, id, c), ReplaceSteps(a) + TidySteps(a, m));
    Runs.RunAppend(Next, Having(s1, a, Convert(id, FileReady(c)), Held(true, false, false)), ReplaceSteps(a), TidySteps(a, m));
  }

  // ---------------------------------------------------------------- failures

  lemma AbandonStep(s: State, a: Actor, d: Draft, h: Held)
    ensures Next(Having(s, a, Publish(d, Filed), h), OfPublish(a, Abandon)) == Some(Having(s, a, Publish(d, Abandoned), NoLocks))
  {
    var t := PublishStepped(Having(s, a, Publish(d, Filed), h), a, Abandon);
    var u := Having(s, a, Publish(d, Abandoned), NoLocks);
    assert t.workers == u.workers && t.locks.image == u.locks.image && t.locks.path == u.locks.path;
    assert t.locks.readers == u.locks.readers && t.locks.writer == u.locks.writer;
  }

  lemma RollbackDisk(s: State, a: Actor, d: Draft)
    ensures var s1 := s.(disk := s.disk.(files := s.disk.files - {d.id}));
      var job := Publish(d, Abandoned);
      && Next(Having(s, a, job, NoLocks), OfPublish(a, RemoveFile)) == Some(Having(s1, a, job, NoLocks))
      && Next(Having(s1, a, job, NoLocks), OfPublish(a, RemoveThumb)) == Some(Having(FilesErased(s, d.id, d.id), a, job, NoLocks))
  {
  }

  function RollbackSteps(a: Actor): seq<Event> {
    [OfPublish(a, Abandon), OfPublish(a, RemoveFile), OfPublish(a, RemoveThumb), Finish(a)]
  }

  lemma RollbackRuns(s: State, a: Actor, d: Draft, h: Held)
    requires a !in s.workers
    ensures Run(Having(s, a, Publish(d, Filed), h), RollbackSteps(a)) == Some(FilesErased(s, d.id, d.id).(locks := FREE))
  {
    var job := Publish(d, Abandoned);
    var s1 := s.(disk := s.disk.(files := s.disk.files - {d.id}));
    var s2 := FilesErased(s, d.id, d.id);
    AbandonStep(s, a, d, h);
    RollbackDisk(s, a, d);
    Returns(s2, a, job, NoLocks);
    Runs.TraceRuns(Next, [Having(s, a, Publish(d, Filed), h), Having(s, a, job, NoLocks), Having(s1, a, job, NoLocks),
                          Having(s2, a, job, NoLocks), s2.(locks := FREE)], RollbackSteps(a));
  }

  function FailEvents(a: Actor, d: Draft, m: Option<Instant>): seq<Event> {
    PublishSteps(a, d, m) + (LocksOf(a, Publish(d, Filed)) + RollbackSteps(a))
  }

  lemma ErasedAgain(s: State, a: Actor, d: Draft, m: Option<Instant>)
    requires d.id !in s.disk.files && d.id !in s.disk.thumbs
    ensures var t := FilesErased(Written(s, a, d, m), d.id, d.id); t.disk == s.disk && t.db == s.db && t.index == s.index
  {
    var t := FilesErased(Written(s, a, d, m), d.id, d.id);
    assert t.disk.files == s.disk.files && t.disk.thumbs == s.disk.thumbs;
  }

  /** An upload or import whose row is refused leaves rows, files, thumbnails and index as they were. */
  lemma FailedPublishAlone(s: State, a: Actor, d: Draft, m: Option<Instant>)
    requires Inv(s) && Free(s) && a !in s.workers && MayStart(s, Publish(d, Staged)) && (m.Some? ==> d.written <= m.value <= s.clock)
    ensures Run(s, FailEvents(a, d, m)).Some?
    ensures var t := Run(s, FailEvents(a, d, m)).value;
      Ends(s, t) && t.db == s.db && t.disk == s.disk && t.index == s.index
  {
    FreshKey(s, d.id);
    var w := Written(s, a, d, m);
    PublishWrites(s, a, d, m);
    Locks(w, a, Publish(d, Filed));
    RollbackRuns(w, a, d, AllLocks(Publish(d, Filed)));
    ErasedAgain(s, a, d, m);
    Runs.RunAppend(Next, s, PublishSteps(a, d, m), LocksOf(a, Publish(d, Filed)) + RollbackSteps(a));
    Runs.RunAppend(Next, Having(w, a, Publish(d, Filed), NoLocks), LocksOf(a, Publish(d, Filed)), RollbackSteps(a));
  }

  function GiveUpSteps(a: Actor): seq<Event> { [Lock(a), OfConvert(a, GiveUp), OfConvert(a, RemoveNewFile), Finish(a)] }

  lemma GiveUpStep(s: State, a: Actor, id: Uuid, c: Change)
    ensures Next(Having(s, a, Convert(id, FileReady(c)), Held(true, false, true)), OfConvert(a, GiveUp))
         == Some(Having(s, a, Convert(id, GivenUp(c)), Held(true, false, false)))
  {
    Leaves(s, a, Convert(id, FileReady(c)), Held(true, false, true));
    var t := ConvertStepped(Having(s, a, Convert(id, FileReady(c)), Held(true, false, true)), a, GiveUp);
    assert t.workers == Having(s, a, Convert(id, GivenUp(c)), Held(true, false, false)).workers;
  }

  lemma GiveUpRuns(s: State, a: Actor, id: Uuid, c: Change)
    requires a !in s.workers
    ensures Run(Having(s, a, Convert(id, FileReady(c)), Held(true, false, false)), GiveUpSteps(a))
         == Some(s.(disk := s.disk.(files := s.disk.files - {c.after.key}), locks := FREE))
  {
    var out := Held(true, false, false);
    var ready, job := Convert(id, FileReady(c)), Convert(id, GivenUp(c));
    var t := s.(disk := s.disk.(files := s.disk.files - {c.after.key}));
    OneLock(s, a, ready, out);
    GiveUpStep(s, a, id, c);
    Returns(t, a, job, out);
    assert Next(Having(s, a, job, out), OfConvert(a, RemoveNewFile)) == Some(Having(t, a, job, out));
    Runs.TraceRuns(Next, [Having(s, a, ready, out), Having(s, a, ready, Held(true, false, true)), Having(s, a, job, out),
                          Having(t, a, job, out), t.(locks := FREE)], GiveUpSteps(a));
  }

  /** A conversion whose row is refused leaves rows, files, thumbnails and index as they were. */
  lemma FailedConvertAlone(s: State, a: Actor, id: Uuid, c: Change)
    requires Inv(s) && Free(s) && a !in s.workers && Converts(s, id, c)
    ensures Run(s, PrepareSteps(a, id, c) + GiveUpSteps(a)).Some?
    ensures var t := Run(s, PrepareSteps(a, id, c) + GiveUpSteps(a)).value;
      Ends(s, t) && t.db == s.db && t.disk == s.disk && t.index == s.index
  {
    FreshKey(s, c.after.key);
    var s1 := FileWritten(s, id, c);
    PrepareRuns(s, a, id, c);
    GiveUpRuns(s1, a, id, c);
    assert s1.disk.files - {c.after.key} == s.disk.files;
    Runs.RunAppend(Next, s, PrepareSteps(a, id, c), GiveUpSteps(a));
  }
}
