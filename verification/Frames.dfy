/** One job's step leaves the images, paths and jobs it does not concern as they were. */
module Frames {
  import opened Base
  import opened Delivery
  import opened Loader
  import opened Protocol
  import opened Invariant
  import Locking

  /** The job of `a` moves to another phase and keeps its image and path locks. */
  predicate Moves(s: State, t: State, a: Actor) {
    && a in s.workers && a in t.workers
    && t.locks.image == s.locks.image && t.locks.path == s.locks.path
    && t.workers == s.workers[a := t.workers[a]]
    && var w, v := s.workers[a], t.workers[a];
    && v.held.image == w.held.image && v.held.path == w.held.path
    && ImageOf(v.job) == ImageOf(w.job)
    && (w.held.path ==> PathOf(v.job) == PathOf(w.job))
  }

  function HeldImage(w: Worker): Option<Uuid> { if w.held.image then ImageOf(w.job) else None }

  function HeldPath(w: Worker): Option<Path> { if w.held.path then PathOf(w.job) else None }

  /** Outside image `img` and path `path` the rows and the index are unchanged. */
  ghost predicate Local(s: State, t: State, img: Option<Uuid>, path: Option<Path>) {
    && LocalImage(s, t, img)
    && (forall p :: Some(p) != path ==> Lookup(t.db.aliases, p) == Lookup(s.db.aliases, p))
    && (forall p :: Some(p) != path ==> Lookup(t.index.aliases, p) == Lookup(s.index.aliases, p))
  }

  ghost predicate LocalImage(s: State, t: State, img: Option<Uuid>) {
    && (forall id: Uuid :: Some(id) != img ==> Lookup(t.db.rows, id) == Lookup(s.db.rows, id))
    && (forall id: Uuid :: Some(id) != img ==> Lookup(t.index.byID, id) == Lookup(s.index.byID, id))
  }

  /** What the invariant says about one job, its locks, and the image and path it has locked. */
  predicate Facts(s: State, a: Actor) {
    && a in s.workers
    && var w := s.workers[a];
    && WorkerFine(s, a, w.job)
    && Locking.HoldsEnough(w) && Locking.Registered(s.locks, a, w)
    && (HeldImage(w).Some? ==> ImageAt(s, HeldImage(w).value, PendingOf(w.job)))
    && (HeldPath(w).Some? ==> PathAt(s, HeldPath(w).value, Stale(s, HeldPath(w).value), PathPendingOf(w.job)))
  }

  /** One image agrees with its pending state, and its row and target are sound. */
  predicate ImageAt(s: State, id: Uuid, p: Pending) {
    && ImageOk(Lookup(s.db.rows, id), Lookup(s.index.byID, id), p)
    && (id in s.db.rows ==> RowFine(s, id))
    && (id in s.index.byID ==> TargetFine(s, id))
  }

  predicate PathAt(s: State, path: Path, stale: bool, p: PathPending) {
    && AliasOk(Lookup(s.db.aliases, path), Lookup(s.index.aliases, path), stale, p)
    && (path in s.db.aliases ==> AliasRowFine(s, path))
  }

  lemma FactsOf(s: State, a: Actor)
    requires Inv(s) && a in s.workers
    ensures Facts(s, a)
  {
    var w := s.workers[a];
    assert Locking.Registered(s.locks, a, w);
    if HeldImage(w).Some? { assert ImageFine(s, HeldImage(w).value); }
    if HeldPath(w).Some? { assert AliasFine(s, HeldPath(w).value); }
  }

  /** After a step, the image and path its job has locked agree with the job's new phase. */
  predicate Lands(s: State, t: State, a: Actor) {
    && a in s.workers && a in t.workers
    && var v := t.workers[a];
    && WorkerFine(t, a, v.job)
    && (HeldImage(v).Some? ==> ImageAt(t, HeldImage(v).value, PendingOf(v.job)))
    && (HeldPath(v).Some? ==>
          var p := HeldPath(v).value;
          PathAt(t, p, Stale(s, p) && Lookup(t.index.aliases, p) == Lookup(s.index.aliases, p), PathPendingOf(v.job)))
  }

  lemma PendingAfterMove(s: State, t: State, a: Actor, id: Uuid)
    requires Locking.Locked(s.workers, s.locks) && Moves(s, t, a)
    ensures PendingAt(t.workers, t.locks, id) ==
            if t.workers[a].held.image && ImageOf(t.workers[a].job) == Some(id) then PendingOf(t.workers[a].job)
            else PendingAt(s.workers, s.locks, id)
  {
    assert Locking.Registered(s.locks, a, s.workers[a]);
  }

  lemma PathPendingAfterMove(s: State, t: State, a: Actor, p: Path)
    requires Locking.Locked(s.workers, s.locks) && Moves(s, t, a)
    ensures PathPendingAt(t.workers, t.locks, p) ==
            if t.workers[a].held.path && PathOf(t.workers[a].job) == Some(p) then PathPendingOf(t.workers[a].job)
            else PathPendingAt(s.workers, s.locks, p)
  {
    assert Locking.Registered(s.locks, a, s.workers[a]);
  }

  lemma ImagesAfterMove(s: State, t: State, a: Actor)
    requires Locking.Locked(s.workers, s.locks) && Moves(s, t, a)
    requires var v := t.workers[a]; HeldImage(v).Some? ==> ImageAt(t, HeldImage(v).value, PendingOf(v.job))
    requires LocalImage(s, t, HeldImage(t.workers[a]))
    requires forall id :: ImageFine(s, id)
    ensures forall id :: ImageFine(t, id)
  {
    forall id: Uuid ensures ImageFine(t, id) {
      assert ImageFine(s, id);
      PendingAfterMove(s, t, a, id);
      assert Some(id) != HeldImage(t.workers[a]) ==> Lookup(t.db.rows, id) == Lookup(s.db.rows, id);
      assert Some(id) != HeldImage(t.workers[a]) ==> Lookup(t.index.byID, id) == Lookup(s.index.byID, id);
    }
  }

  lemma StaleAfterMove(s: State, t: State, a: Actor, p: Path)
    requires Locking.Locked(s.workers, s.locks) && Moves(s, t, a)
    requires !PendingOf(s.workers[a].job).TargetOnly?
    requires Stale(s, p) && Lookup(t.index.aliases, p) == Lookup(s.index.aliases, p)
    ensures Stale(t, p)
  {
    PendingAfterMove(s, t, a, s.index.aliases[p]);
    assert Locking.Registered(s.locks, a, s.workers[a]);
  }

  lemma AliasesAfterMove(s: State, t: State, a: Actor)
    requires Locking.Locked(s.workers, s.locks) && Moves(s, t, a) && Lands(s, t, a)
    requires Local(s, t, HeldImage(t.workers[a]), HeldPath(t.workers[a]))
    requires !PendingOf(s.workers[a].job).TargetOnly?
    requires forall p :: AliasFine(s, p)
    ensures forall p :: AliasFine(t, p)
  {
    forall p ensures AliasFine(t, p) {
      assert AliasFine(s, p);
      PathPendingAfterMove(s, t, a, p);
      assert Some(p) != HeldPath(t.workers[a]) ==> Lookup(t.db.aliases, p) == Lookup(s.db.aliases, p);
      assert Some(p) != HeldPath(t.workers[a]) ==> Lookup(t.index.aliases, p) == Lookup(s.index.aliases, p);
      if Stale(s, p) && Lookup(t.index.aliases, p) == Lookup(s.index.aliases, p) { StaleAfterMove(s, t, a, p); }
    }
  }

  // ---------------------------------------------------------------- what other jobs rely on

  predicate Extends<K, V(==)>(m: map<K, V>, n: map<K, V>) {
    forall k :: k in m ==> k in n && n[k] == m[k]
  }

  /** History only grows, and time does not run backwards. */
  predicate Grows(s: State, t: State) {
    && Extends(s.past.keys, t.past.keys) && Extends(s.past.publishers, t.past.publishers)
    && Extends(s.past.homes, t.past.homes)
    && s.past.born <= t.past.born && s.past.swept <= t.past.swept
    && s.clock <= t.clock
  }

  predicate MayRemove(s: State, a: Actor, key: Uuid) {
    && key in s.past.keys
    && var id := s.past.keys[key].owner;
    || !InTime(s, s.past.keys[key].written)
    || (id in s.past.born && id in s.locks.image && s.locks.image[id] == a)
    || (id !in s.past.born && id in s.past.publishers && s.past.publishers[id] == a)
  }

  predicate MayWrite(s: State, a: Actor, key: Uuid) {
    key !in s.past.keys || (key in s.past.publishers && s.past.publishers[key] == a)
  }

  /** Files disappear only out of time or by the job concerned with their image. */
  predicate SparesFiles(s: State, t: State, a: Actor) {
    && (forall k :: k in s.disk.files ==> (k in t.disk.files && t.disk.files[k] == s.disk.files[k]) || MayRemove(s, a, k))
    && (forall k :: k in t.disk.files ==> k in s.disk.files || MayWrite(s, a, k))
  }

  /** A row gets a new key, or appears at all, only in time. */
  predicate SparesRows(s: State, t: State, a: Actor) {
    && (forall id :: id in t.past.born ==> id in s.past.born || (id in s.past.publishers && s.past.publishers[id] == a))
    && (t.db == s.db || a in s.locks.readers)
    && (forall id :: id in t.db.rows ==>
          && ((id in s.db.rows && t.db.rows[id].key == s.db.rows[id].key)
              || (t.db.rows[id].key in s.past.keys && InTime(s, s.past.keys[t.db.rows[id].key].written)))
          && (id in s.db.rows || (id in s.past.keys && InTime(s, s.past.keys[id].written))))
  }

  predicate Spares(s: State, t: State, a: Actor) {
    Grows(s, t) && SparesFiles(s, t, a) && SparesRows(s, t, a)
  }

  lemma DraftSpared(s: State, t: State, a: Actor, b: Actor, d: Draft, p: PublishPhase)
    requires Spares(s, t, a) && a != b && DraftFine(s, b, d, p)
    ensures DraftFine(t, b, d, p)
  {
  }

  lemma ConversionSpared(s: State, t: State, a: Actor, b: Actor, id: Uuid, p: ConvertPhase)
    requires Spares(s, t, a) && a != b && ConvertFine(s, id, p)
    requires !p.ToConvert? ==> id in s.locks.image && s.locks.image[id] == b
    ensures ConvertFine(t, id, p)
  {
  }

  lemma DailySpared(s: State, t: State, a: Actor, now: Instant, p: DailyPhase)
    requires Spares(s, t, a) && DailyFine(s, now, p)
    ensures DailyFine(t, now, p)
  {
  }

  lemma WorkerSpared(s: State, t: State, a: Actor, b: Actor, job: Job)
    requires Spares(s, t, a) && a != b && WorkerFine(s, b, job)
    requires Locking.Locked(s.workers, s.locks) && b in s.workers && s.workers[b].job == job
    ensures WorkerFine(t, b, job)
  {
    assert Locking.Registered(s.locks, b, s.workers[b]) && Locking.HoldsEnough(s.workers[b]);
    match job
    case Publish(d, p) => DraftSpared(s, t, a, b, d, p);
    case Convert(id, p) => ConversionSpared(s, t, a, b, id, p);
    case Daily(now, p) => DailySpared(s, t, a, now, p);
    case Rebuild(p) =>
    case _ =>
  }


  // ---------------------------------------------------------------- the stores

  /** No row and no target names the file any more. */
  predicate Unneeded(s: State, t: State, img: Option<Uuid>, key: Uuid) {
    && key in s.past.keys
    && var id := s.past.keys[key].owner;
    || (Dead(s, key) && KeyUnused(t.db.rows, key) && key in t.past.swept)
    || ((Some(id) == img || id !in s.past.born)
        && (id in t.db.rows ==> t.db.rows[id].key != key)
        && (id in t.index.byID ==> t.index.byID[id].key != key))
  }

  /** What a step writes to the disk and to the history is consistent; what it deletes is unneeded. */
  predicate Tidy(s: State, t: State, img: Option<Uuid>) {
    && (forall k :: k in s.disk.files ==> (k in t.disk.files && t.disk.files[k] == s.disk.files[k]) || Unneeded(s, t, img, k))
    && (forall k :: k in t.disk.files ==>
          (k in s.disk.files && t.disk.files[k] == s.disk.files[k])
          || (k in t.past.keys && t.disk.files[k].written == t.past.keys[k].written))
    && (forall i :: i in t.disk.thumbs ==>
          (i in s.disk.thumbs && t.disk.thumbs[i] == s.disk.thumbs[i])
          || (i in t.past.keys && t.past.keys[i].written <= t.disk.thumbs[i]))
    && (forall id :: id in t.past.born ==> id in s.past.born || Owns(t.past, id, id))
    && (forall k :: k in t.past.keys ==> k in s.past.keys || t.past.keys[k].written <= t.clock)
    && s.db.rows.Keys <= t.db.rows.Keys
    && t.past.publishers == s.past.publishers && t.past.homes == s.past.homes
  }

  lemma RowsAfterMove(s: State, t: State, img: Option<Uuid>, path: Option<Path>, id: Uuid)
    requires StoresFine(s) && Grows(s, t) && Tidy(s, t, img) && Local(s, t, img, path)
    requires Some(id) != img
    ensures id in t.db.rows ==> RowFine(t, id)
    ensures id in t.index.byID ==> TargetFine(t, id)
  {
    assert Lookup(t.db.rows, id) == Lookup(s.db.rows, id);
    assert Lookup(t.index.byID, id) == Lookup(s.index.byID, id);
    UnixMonotone(s.clock, t.clock);
  }

  lemma StoresAfterMove(s: State, t: State, img: Option<Uuid>, path: Option<Path>)
    requires StoresFine(s) && Grows(s, t) && Tidy(s, t, img) && Local(s, t, img, path)
    requires img.Some? && img.value in t.db.rows ==> RowFine(t, img.value)
    requires img.Some? && img.value in t.index.byID ==> TargetFine(t, img.value)
    requires path.Some? && path.value in t.db.aliases ==> AliasRowFine(t, path.value)
    ensures StoresFine(t)
  {
    forall id: Uuid | Some(id) != img ensures (id in t.db.rows ==> RowFine(t, id)) && (id in t.index.byID ==> TargetFine(t, id)) {
      RowsAfterMove(s, t, img, path, id);
    }
    forall p | Some(p) != path && p in t.db.aliases ensures AliasRowFine(t, p) {
      assert Lookup(t.db.aliases, p) == Lookup(s.db.aliases, p);
      assert AliasRowFine(s, p);
    }
  }

  lemma WorkersAfterMove(s: State, t: State, a: Actor)
    requires Locking.Locked(s.workers, s.locks) && Spares(s, t, a)
    requires a in t.workers && t.workers == s.workers[a := t.workers[a]] && WorkerFine(t, a, t.workers[a].job)
    requires forall b :: b in s.workers ==> WorkerFine(s, b, s.workers[b].job)
    ensures forall b :: b in t.workers ==> WorkerFine(t, b, t.workers[b].job)
  {
    forall b | b in t.workers ensures WorkerFine(t, b, t.workers[b].job) {
      if b != a { WorkerSpared(s, t, a, b, s.workers[b].job); }
    }
  }

  /** A step that only concerns the image and the path its job has locked keeps the invariant. */
  lemma InvAfterMove(s: State, t: State, a: Actor)
    requires Inv(s) && Moves(s, t, a) && Lands(s, t, a)
    requires Local(s, t, HeldImage(t.workers[a]), HeldPath(t.workers[a]))
    requires Spares(s, t, a) && Tidy(s, t, HeldImage(t.workers[a]))
    requires Locking.Locked(t.workers, t.locks)
    requires !PendingOf(s.workers[a].job).TargetOnly?
    ensures Inv(t)
  {
    ImagesAfterMove(s, t, a);
    AliasesAfterMove(s, t, a);
    StoresAfterMove(s, t, HeldImage(t.workers[a]), HeldPath(t.workers[a]));
    WorkersAfterMove(s, t, a);
  }

  // ---------------------------------------------------------------- releasing every lock

  lemma PendingAfterRelease(ws: Workers, l: LockTable, vs: Workers, a: Actor, id: Uuid)
    requires Locking.Locked(ws, l) && a in ws
    requires forall b :: b != a ==> Lookup(vs, b) == Lookup(ws, b)
    ensures PendingAt(vs, Release(l, a), id) ==
            if id in l.image && l.image[id] == a then Settled else PendingAt(ws, l, id)
  {
    if id in l.image && l.image[id] != a { assert Lookup(vs, l.image[id]) == Lookup(ws, l.image[id]); }
  }

  lemma PathPendingAfterRelease(ws: Workers, l: LockTable, vs: Workers, a: Actor, p: Path)
    requires Locking.Locked(ws, l) && a in ws
    requires forall b :: b != a ==> Lookup(vs, b) == Lookup(ws, b)
    ensures PathPendingAt(vs, Release(l, a), p) ==
            if p in l.path && l.path[p] == a then Still else PathPendingAt(ws, l, p)
  {
    if p in l.path && l.path[p] != a { assert Lookup(vs, l.path[p]) == Lookup(ws, l.path[p]); }
  }

  lemma ImagesAfterRelease(s: State, t: State, a: Actor)
    requires Locking.Locked(s.workers, s.locks) && a in s.workers && !Midway(s.workers[a].job)
    requires t == s.(workers := t.workers, locks := Release(s.locks, a))
    requires forall b :: b != a ==> Lookup(t.workers, b) == Lookup(s.workers, b)
    requires forall id :: ImageFine(s, id)
    ensures forall id :: ImageFine(t, id)
  {
    forall id: Uuid ensures ImageFine(t, id) {
      assert ImageFine(s, id);
      PendingAfterRelease(s.workers, s.locks, t.workers, a, id);
    }
  }

  lemma AliasesAfterRelease(s: State, t: State, a: Actor)
    requires Locking.Locked(s.workers, s.locks) && a in s.workers && !Midway(s.workers[a].job)
    requires t == s.(workers := t.workers, locks := Release(s.locks, a))
    requires forall b :: b != a ==> Lookup(t.workers, b) == Lookup(s.workers, b)
    requires forall p :: AliasFine(s, p)
    ensures forall p :: AliasFine(t, p)
  {
    forall p ensures AliasFine(t, p) {
      assert AliasFine(s, p);
      PathPendingAfterRelease(s.workers, s.locks, t.workers, a, p);
      if p in s.index.aliases { PendingAfterRelease(s.workers, s.locks, t.workers, a, s.index.aliases[p]); }
    }
  }

  lemma StoresAfterRelease(s: State, t: State, a: Actor)
    requires StoresFine(s) && t == s.(workers := t.workers, locks := Release(s.locks, a))
    ensures StoresFine(t)
  {
    forall id | id in t.db.rows ensures RowFine(t, id) { assert RowFine(s, id); }
    forall id | id in t.index.byID ensures TargetFine(t, id) { assert TargetFine(s, id); }
    forall p | p in t.db.aliases ensures AliasRowFine(t, p) { assert AliasRowFine(s, p); }
  }

  /** A job that is not between its row write and its index write may release everything. */
  lemma InvAfterRelease(s: State, t: State, a: Actor)
    requires Inv(s) && a in s.workers && !Midway(s.workers[a].job)
    requires t == s.(workers := t.workers, locks := Release(s.locks, a))
    requires forall b :: b != a ==> Lookup(t.workers, b) == Lookup(s.workers, b)
    ensures forall id :: ImageFine(t, id)
    ensures forall p :: AliasFine(t, p)
    ensures StoresFine(t)
  {
    ImagesAfterRelease(s, t, a);
    AliasesAfterRelease(s, t, a);
    StoresAfterRelease(s, t, a);
  }
}
