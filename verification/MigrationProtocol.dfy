/**
 Concurrent loads and deletes of migration images (internal/migrationimage/service.go). A file is
 named by its canonical path: distinct files have distinct ones (AliasPath.ScannedPathsDistinct).
 A scan is published with the number of other entries it skipped: links, and what it could not read.
 */
module MigrationProtocol {
  import opened Base
  import opened MigrationPaging
  import opened MigrationCache
  import Runs

  /** A file in the migration directory; only images with a matching extension are listed. */
  datatype Stored = Stored(image: Image, listed: bool)

  datatype LoadPhase =
    | Asking
    | Scanner                    // holds the scan mutex
    | Scanning(due: set<Path>, walked: seq<Path>, found: seq<Image>, skipped: nat, bytes: nat)
    | Served(answer: Snapshot)

  datatype DeletePhase = Requested | Mutating | Removed | Absent | Forgotten(ok: bool)

  datatype Worker = Load(force: bool, load: LoadPhase) | Delete(path: Path, del: DeletePhase)

  /**
   `names` are all paths ever stored: outside copies bring new files, never a deleted name.
   `scanned` are the paths that were there when the scan of the cached snapshot began.
   */
  datatype State = State(
    files: map<Path, Stored>, cache: Option<Snapshot>, workers: map<Actor, Worker>,
    scan: Option<Actor>, mutation: Option<Actor>, clock: Instant, names: set<Path>, scanned: set<Path>)

  datatype Event =
    | Tick(dt: nat)
    | Restart
    | CopyIn(file: Stored)
    | Start(a: Actor, w: Worker)
    | UseFresh(a: Actor)
    | TakeScan(a: Actor)
    | TakeMutation(a: Actor)
    | Visit(a: Actor, path: Path)
    | Publish(a: Actor, items: seq<Image>, others: nat)
    | RemoveFile(a: Actor)
    | Forget(a: Actor)
    | Finish(a: Actor)

  predicate MayStart(w: Worker) { if w.Load? then w.load.Asking? else w.del.Requested? }

  predicate IsLoad(s: State, a: Actor) { a in s.workers && s.workers[a].Load? }

  predicate IsDelete(s: State, a: Actor) { a in s.workers && s.workers[a].Delete? }

  ghost predicate Enabled(s: State, e: Event) {
    match e
    case Tick(_) => true
    case Restart => true
    case CopyIn(f) => f.image.path !in s.names
    case Start(a, w) => a !in s.workers && MayStart(w)
    case UseFresh(a) =>
      && IsLoad(s, a) && !s.workers[a].force && (s.workers[a].load.Asking? || s.workers[a].load.Scanner?)
      && s.cache.Some? && Fresh(s.cache.value, s.clock)
    case TakeScan(a) => IsLoad(s, a) && s.workers[a].load.Asking? && s.scan.None?
    case TakeMutation(a) =>
      && a in s.workers && s.mutation.None?
      && (if s.workers[a].Load? then s.workers[a].load.Scanner? else s.workers[a].del.Requested?)
    case Visit(a, p) => IsLoad(s, a) && s.workers[a].load.Scanning? && p in s.files && p !in s.workers[a].load.walked
    case Publish(a, items, _) =>
      && IsLoad(s, a) && s.workers[a].load.Scanning? && (forall p :: p in s.workers[a].load.due ==> p in s.workers[a].load.walked)
      && Sorted(items) && multiset(items) == multiset(s.workers[a].load.found)
    case RemoveFile(a) =>
      && IsDelete(s, a) && s.workers[a].del.Mutating?
      && (s.workers[a].path in s.files ==> s.files[s.workers[a].path].listed)
    case Forget(a) => IsDelete(s, a) && (s.workers[a].del.Removed? || s.workers[a].del.Absent?)
    case Finish(a) => a in s.workers && (s.workers[a].Delete? ==> !s.workers[a].del.Removed? && !s.workers[a].del.Absent?)
  }

  /** Every regular file adds to the bytes, a supported image also to the listing. */
  function Visited(f: Stored, p: LoadPhase): LoadPhase
    requires p.Scanning?
  {
    var q := p.(walked := p.walked + [f.image.path], bytes := p.bytes + f.image.size);
    if f.listed then q.(found := p.found + [f.image]) else q.(skipped := p.skipped + 1)
  }

  ghost function Apply(s: State, e: Event): State
    requires Enabled(s, e)
  {
    match e
    case Tick(dt) => s.(clock := s.clock + dt)
    case Restart => s.(cache := None, workers := map[], scan := None, mutation := None)
    case CopyIn(f) => s.(files := s.files[f.image.path := f], names := s.names + {f.image.path})
    case Start(a, w) => s.(workers := s.workers[a := w])
    case UseFresh(a) => s.(workers := s.workers[a := s.workers[a].(load := Served(s.cache.value))])
    case TakeScan(a) => s.(workers := s.workers[a := s.workers[a].(load := Scanner)], scan := Some(a))
    case TakeMutation(a) =>
      var w := s.workers[a];
      s.(workers := s.workers[a := if w.Load? then w.(load := Scanning(s.files.Keys, [], [], 0, 0)) else w.(del := Mutating)],
         mutation := Some(a))
    case Visit(a, p) => s.(workers := s.workers[a := s.workers[a].(load := Visited(s.files[p], s.workers[a].load))])
    case Publish(a, items, others) =>
      var scan := s.workers[a].load;
      var snapshot := Snapshot(items, scan.skipped + others, scan.bytes, s.clock);
      s.(workers := s.workers[a := s.workers[a].(load := Served(snapshot))], cache := Some(snapshot), scanned := scan.due)
    case RemoveFile(a) =>
      var p := s.workers[a].path;
      s.(workers := s.workers[a := Delete(p, if p in s.files then Removed else Absent)], files := s.files - {p})
    case Forget(a) =>
      var w := s.workers[a];
      s.(workers := s.workers[a := w.(del := Forgotten(w.del.Removed?))],
         cache := if s.cache.None? then None else Some(Dropped(s.cache.value, w.path)))
    case Finish(a) =>
      s.(workers := s.workers - {a}, scan := if s.scan == Some(a) then None else s.scan,
         mutation := if s.mutation == Some(a) then None else s.mutation)
  }

  predicate Initial(s: State) {
    && s.cache.None? && s.workers == map[] && s.scan.None? && s.mutation.None?
    && s.files == map[] && s.names == {} && s.scanned == {}
  }

  ghost function Next(s: State, e: Event): Option<State> { if Enabled(s, e) then Some(Apply(s, e)) else None }

  ghost function Run(s: State, events: seq<Event>): Option<State> { Runs.Run(Next, s, events) }

  // ---------------------------------------------------------------- the invariant

  predicate Named(files: map<Path, Stored>, x: Image) {
    x.path in files && files[x.path] == Stored(x, true)
  }

  /** The path whose file the mutation at work has removed, or found absent, and not yet forgotten. */
  predicate Forgetting(s: State, path: Path) {
    && s.mutation.Some? && s.mutation.value in s.workers && s.workers[s.mutation.value].Delete?
    && s.workers[s.mutation.value].path == path
    && (s.workers[s.mutation.value].del.Removed? || s.workers[s.mutation.value].del.Absent?)
  }

  predicate HoldsMutation(w: Worker) {
    if w.Load? then w.load.Scanning? else w.del.Mutating? || w.del.Removed? || w.del.Absent?
  }

  /** Files met by a walk, each once. */
  predicate Walk(files: map<Path, Stored>, walked: seq<Path>) {
    && (forall i :: 0 <= i < |walked| ==> walked[i] in files)
    && (forall i, j :: 0 <= i < j < |walked| ==> walked[i] != walked[j])
  }

  /** The sizes of all files on a walk. */
  function Sizes(files: map<Path, Stored>, walked: seq<Path>): nat
    requires Walk(files, walked)
  {
    if walked == [] then 0
    else
      var n := |walked| - 1;
      Sizes(files, walked[..n]) + files[walked[n]].image.size
  }

  /** What the walk has found of the listed files. */
  ghost predicate Finds(files: map<Path, Stored>, walked: seq<Path>, found: seq<Image>) {
    && (forall x :: x in found <==> x.path in walked && Named(files, x))
    && (forall i, j :: 0 <= i < j < |found| ==> found[i].path != found[j].path)
  }

  ghost predicate ScanFine(s: State, p: LoadPhase) {
    p.Scanning? ==>
      && Walk(s.files, p.walked) && Finds(s.files, p.walked, p.found) && p.skipped + |p.found| == |p.walked|
      && (forall q :: q in p.due ==> q in s.files)
      && p.bytes == Sizes(s.files, p.walked) && Sum(p.found) <= p.bytes
  }

  lemma {:induction false} SizesKept(files: map<Path, Stored>, more: map<Path, Stored>, walked: seq<Path>)
    requires Walk(files, walked) && forall p :: p in walked ==> p in more && more[p] == files[p]
    ensures Walk(more, walked) && Sizes(more, walked) == Sizes(files, walked)
  {
    if walked != [] { SizesKept(files, more, walked[..|walked| - 1]); }
  }

  /** Files that leave a walk alone leave its account alone. */
  lemma ScanKept(s: State, t: State, p: LoadPhase)
    requires ScanFine(s, p)
    requires forall q :: q in s.files ==> q in t.files && t.files[q] == s.files[q]
    ensures ScanFine(t, p)
  {
    if p.Scanning? { SizesKept(s.files, t.files, p.walked); }
  }

  lemma VisitKept(s: State, p: LoadPhase, path: Path)
    requires FilesFine(s) && p.Scanning? && ScanFine(s, p) && path in s.files && path !in p.walked
    ensures ScanFine(s, Visited(s.files[path], p))
  {
    WalksOn(s.files, p.walked, path);
    FindsMore(s.files, p.walked, p.found, path);
    var f := s.files[path];
    if f.listed { assert (p.found + [f.image])[..|p.found|] == p.found; }
  }

  lemma WalksOn(files: map<Path, Stored>, walked: seq<Path>, path: Path)
    requires Walk(files, walked) && path in files && path !in walked
    ensures Walk(files, walked + [path]) && Sizes(files, walked + [path]) == Sizes(files, walked) + files[path].image.size
  {
    assert (walked + [path])[..|walked|] == walked;
  }

  lemma FindsMore(files: map<Path, Stored>, walked: seq<Path>, found: seq<Image>, path: Path)
    requires Finds(files, walked, found) && path in files && path !in walked && files[path].image.path == path
    ensures Finds(files, walked + [path], if files[path].listed then found + [files[path].image] else found)
  {
    assert forall x :: x in walked + [path] <==> x in walked || x == path;
    forall i | 0 <= i < |found| ensures found[i].path != path { assert found[i] in found; }
  }

  ghost predicate WorkerFine(s: State, a: Actor)
    requires a in s.workers
  {
    && (HoldsMutation(s.workers[a]) ==> s.mutation == Some(a))
    && (s.workers[a].Load? ==> ScanFine(s, s.workers[a].load))
    && (s.workers[a].Load? && (s.workers[a].load.Scanner? || s.workers[a].load.Scanning?) ==> s.scan == Some(a))
    && (s.workers[a].Delete? && s.workers[a].del.Removed? ==> s.workers[a].path !in s.files && s.workers[a].path in s.names)
    && (s.workers[a].Delete? && s.workers[a].del.Absent? ==> s.workers[a].path !in s.files || s.workers[a].path !in s.scanned)
  }

  /** Every cached item is a listed file, unless a delete is just about to forget it. */
  predicate CacheFine(s: State) {
    s.cache.Some? ==>
      && (forall x :: x in s.cache.value.items ==>
            x.path in s.names && (Named(s.files, x) || (x.path !in s.files && Forgetting(s, x.path))))
      && Sorted(s.cache.value.items)
      && Sum(s.cache.value.items) <= s.cache.value.bytes
  }

  /** Of the files there when its scan began, the snapshot lists every one that is listed and still there. */
  predicate CacheComplete(s: State) {
    s.cache.Some? ==>
      && s.cache.value.at <= s.clock
      && (forall q :: q in s.scanned && q in s.files && s.files[q].listed ==> s.files[q].image in s.cache.value.items)
  }

  predicate FilesFine(s: State) {
    s.files.Keys <= s.names && s.scanned <= s.names && forall p :: p in s.files ==> s.files[p].image.path == p
  }

  ghost predicate Inv(s: State) {
    && FilesFine(s) && CacheFine(s) && CacheComplete(s)
    && (s.mutation.Some? ==> s.mutation.value in s.workers) && (s.scan.Some? ==> s.scan.value in s.workers)
    && forall a :: a in s.workers ==> WorkerFine(s, a)
  }

  lemma InitialFine(s: State)
    requires Initial(s)
    ensures Inv(s)
  {
  }

  lemma OwnWorkerKept(s: State, e: Event)
    requires Inv(s) && Enabled(s, e) && !e.Tick? && !e.Restart? && !e.CopyIn?
    ensures e.a in Apply(s, e).workers ==> WorkerFine(Apply(s, e), e.a)
  {
    if e.a in s.workers { assert WorkerFine(s, e.a); }
    if e.Visit? { VisitKept(s, s.workers[e.a].load, e.path); }
  }

  lemma OtherWorkerKept(s: State, e: Event, b: Actor)
    requires Inv(s) && Enabled(s, e) && !e.Restart? && b in s.workers && (e.Tick? || e.CopyIn? || e.a != b)
    ensures b in Apply(s, e).workers && WorkerFine(Apply(s, e), b)
  {
    assert WorkerFine(s, b);
    if e.RemoveFile? || e.Publish? { assert WorkerFine(s, e.a); }
    if e.CopyIn? && s.workers[b].Load? { ScanKept(s, Apply(s, e), s.workers[b].load); }
  }

  lemma CacheKept(s: State, e: Event)
    requires Inv(s) && Enabled(s, e)
    ensures CacheFine(Apply(s, e))
  {
    match e
    case Publish(a, items, _) =>
      assert WorkerFine(s, a);
      SumOfPermutation(items, s.workers[a].load.found);
      forall x | x in items ensures Named(s.files, x) { assert x in multiset(s.workers[a].load.found); }
    case Forget(a) =>
      assert WorkerFine(s, a);
      if s.cache.Some? {
        WithoutFacts(s.cache.value.items, s.workers[a].path);
        WithoutIsLess(s.cache.value.items, s.workers[a].path);
        WithoutStaysSorted(s.cache.value.items, s.workers[a].path);
      }
    case RemoveFile(a) => assert WorkerFine(s, a);
    case Finish(a) => assert WorkerFine(s, a);
    case _ =>
  }

  lemma CompleteKept(s: State, e: Event)
    requires Inv(s) && Enabled(s, e)
    ensures CacheComplete(Apply(s, e))
  {
    match e
    case Publish(a, items, _) =>
      assert WorkerFine(s, a);
      forall q | q in s.workers[a].load.due && s.files[q].listed ensures s.files[q].image in items {
        assert s.files[q].image in multiset(s.workers[a].load.found);
      }
    case Forget(a) =>
      assert WorkerFine(s, a);
      if s.cache.Some? { WithoutFacts(s.cache.value.items, s.workers[a].path); }
    case _ =>
  }

  lemma StepKept(s: State, e: Event)
    requires Inv(s) && Enabled(s, e)
    ensures Inv(Apply(s, e))
  {
    if e.Publish? { assert WorkerFine(s, e.a); }
    CacheKept(s, e);
    CompleteKept(s, e);
    if !e.Restart? {
      forall a | a in Apply(s, e).workers ensures WorkerFine(Apply(s, e), a) {
        if e.Tick? || e.CopyIn? || a != e.a { OtherWorkerKept(s, e, a); } else { OwnWorkerKept(s, e); }
      }
    }
  }

  lemma RunKept(s: State, events: seq<Event>)
    requires Inv(s) && Run(s, events).Some?
    ensures Inv(Run(s, events).value)
  {
    forall s, e | Inv(s) && Next(s, e).Some? ensures Inv(Next(s, e).value) {
      StepKept(s, e);
    }
    Runs.InvariantHolds(Next, s => Inv(s), s, events);
  }

  // ---------------------------------------------------------------- what every run guarantees

  /** What the stored bytes count beyond the listed items. */
  function Unlisted(s: Snapshot): int { s.bytes - Sum(s.items) }

  /** Stored bytes never fall below the listed sizes, and no delete changes the difference. */
  lemma BytesStayAbove(s0: State, events: seq<Event>)
    requires Initial(s0) && Run(s0, events).Some?
    ensures var s := Run(s0, events).value;
      s.cache.Some? ==> Unlisted(s.cache.value) >= 0 && s.cache.value.bytes >= 0 && Sorted(s.cache.value.items)
  {
    InitialFine(s0);
    RunKept(s0, events);
  }

  lemma DeletesKeepUnlisted(s: State, a: Actor)
    requires Inv(s) && Enabled(s, Forget(a)) && s.cache.Some?
    ensures var t := Apply(s, Forget(a)); t.cache.Some? && Unlisted(t.cache.value) == Unlisted(s.cache.value) >= 0
    ensures forall x :: x in Apply(s, Forget(a)).cache.value.items <==>
              x in s.cache.value.items && x.path != s.workers[a].path
  {
    WithoutFacts(s.cache.value.items, s.workers[a].path);
  }

  /** Loads that scan, or wait to, come one after the other, and no delete is at work meanwhile. */
  lemma OneScanAtATime(s0: State, events: seq<Event>, a: Actor, b: Actor)
    requires Initial(s0) && Run(s0, events).Some?
    ensures var s := Run(s0, events).value;
      IsLoad(s, a) && s.workers[a].load.Scanning? && b in s.workers && b != a ==>
        && (s.workers[b].Load? ==> s.workers[b].load.Asking? || s.workers[b].load.Served?)
        && (s.workers[b].Delete? ==> s.workers[b].del.Requested? || s.workers[b].del.Forgotten?)
  {
    InitialFine(s0);
    RunKept(s0, events);
    var s := Run(s0, events).value;
    if a in s.workers { assert WorkerFine(s, a); }
    if b in s.workers { assert WorkerFine(s, b); }
  }

  /**
   A published scan accounts for the files it walked, each once, and among them are all that were
   there when it began: it lists the listed ones as they are, counts the bytes of all, and counts
   the others as skipped.
   */
  lemma ScansAreComplete(s: State, a: Actor, items: seq<Image>, others: nat)
    requires Inv(s) && Enabled(s, Publish(a, items, others))
    ensures var walked := s.workers[a].load.walked;
      var t := Apply(s, Publish(a, items, others));
      && Walk(s.files, walked) && (forall path :: path in s.workers[a].load.due ==> path in walked)
      && t.cache.Some? && t.cache.value.items == items && Sorted(items)
      && (forall x :: x in items <==> x.path in walked && Named(s.files, x))
      && t.cache.value.bytes == Sizes(s.files, walked)
      && t.cache.value.skipped == |walked| - |items| + others >= others
      && t.workers[a] == Load(s.workers[a].force, Served(t.cache.value))
  {
    assert WorkerFine(s, a);
    var found := s.workers[a].load.found;
    assert |items| == |multiset(items)| == |found|;
    forall x ensures x in items <==> x in found { assert x in items <==> x in multiset(items); }
  }

  /**
   In every run, a snapshot served from the cache was scanned less than 30 minutes ago; it lists,
   as they are, all listed files that were there when that scan began and still are, and nothing
   that is gone but what a delete is just about to forget.
   */
  lemma ServedSnapshotIsCurrent(s0: State, events: seq<Event>, a: Actor)
    requires Initial(s0) && Run(s0, events).Some? && Enabled(Run(s0, events).value, UseFresh(a))
    ensures var s := Run(s0, events).value;
      var w := Apply(s, UseFresh(a)).workers[a];
      && s.workers[a] == Load(false, s.workers[a].load) && w == Load(false, Served(w.load.answer))
      && s.cache == Some(w.load.answer)
      && w.load.answer.at <= s.clock < w.load.answer.at + 1_800_000_000_000
      && (forall q :: q in s.scanned && q in s.files && s.files[q].listed ==> s.files[q].image in w.load.answer.items)
      && (forall x :: x in w.load.answer.items ==> Named(s.files, x) || (x.path !in s.files && Forgetting(s, x.path)))
  {
    InitialFine(s0);
    RunKept(s0, events);
  }

  predicate InCache(s: State, path: Path) {
    s.cache.Some? && exists x :: x in s.cache.value.items && x.path == path
  }

  /** The file is gone for good and the cache does not list it. */
  predicate Deleted(s: State, path: Path) {
    path in s.names && path !in s.files && !InCache(s, path)
  }

  lemma DeletedKept(s: State, e: Event, path: Path)
    requires Inv(s) && Enabled(s, e) && Deleted(s, path)
    ensures Deleted(Apply(s, e), path)
  {
    var t := Apply(s, e);
    if e.Publish? {
      assert WorkerFine(s, e.a);
      forall x | x in e.items ensures x.path != path {
        assert x in multiset(s.workers[e.a].load.found);
        assert Named(s.files, x);
      }
    } else if e.Forget? && s.cache.Some? {
      WithoutFacts(s.cache.value.items, s.workers[e.a].path);
    }
  }

  lemma DeletedForever(s: State, events: seq<Event>, path: Path)
    requires Inv(s) && Run(s, events).Some? && Deleted(s, path)
    ensures Deleted(Run(s, events).value, path)
  {
    forall s, e | Inv(s) && Deleted(s, path) && Next(s, e).Some? ensures Inv(Next(s, e).value) && Deleted(Next(s, e).value, path) {
      StepKept(s, e);
      DeletedKept(s, e, path);
    }
    Runs.InvariantHolds(Next, s => Inv(s) && Deleted(s, path), s, events);
  }

  /** After Delete has removed a file and forgotten it, no snapshot ever lists it, whatever overlaps. */
  lemma DeletedImageIsNeverListed(s: State, a: Actor, later: seq<Event>)
    requires Inv(s) && Enabled(s, Forget(a)) && s.workers[a].del.Removed?
    requires Run(s, [Forget(a)] + later).Some?
    ensures !InCache(Run(s, [Forget(a)] + later).value, s.workers[a].path)
  {
    var path := s.workers[a].path;
    var t := Apply(s, Forget(a));
    StepKept(s, Forget(a));
    assert WorkerFine(s, a);
    if s.cache.Some? {
      DeletesKeepUnlisted(s, a);
    }
    assert ([Forget(a)] + later)[1..] == later;
    DeletedForever(t, later, path);
  }

  // ---------------------------------------------------------------- what every caller can reach

  predicate Away(s: State, path: Path) { path in s.names && path !in s.files }

  /** Removing the file reports whether it was there, and it stays away: outside copies bring new names. */
  lemma RemovedFileStaysGone(s: State, a: Actor, later: seq<Event>)
    requires Inv(s) && Enabled(s, RemoveFile(a)) && Run(s, [RemoveFile(a)] + later).Some?
    ensures var path := s.workers[a].path;
      && Apply(s, RemoveFile(a)).workers[a] == Delete(path, if path in s.files then Removed else Absent)
      && (path in s.files ==> path !in Run(s, [RemoveFile(a)] + later).value.files)
      && Apply(s, RemoveFile(a)).files == s.files - {path} && (path in s.files ==> s.files[path].listed)
  {
    var path := s.workers[a].path;
    var t := Apply(s, RemoveFile(a));
    assert ([RemoveFile(a)] + later)[1..] == later;
    if path in s.files {
      forall s, e | Away(s, path) && Next(s, e).Some? ensures Away(Next(s, e).value, path) {}
      Runs.InvariantHolds(Next, s => Away(s, path), t, later);
    }
  }

  function Insert(x: Image, items: seq<Image>): seq<Image> {
    if items == [] then [x]
    else if Before(At(x), At(items[0])) then [x] + items
    else [items[0]] + Insert(x, items[1..])
  }

  lemma {:induction false} InsertAdds(x: Image, items: seq<Image>)
    ensures multiset(Insert(x, items)) == multiset(items) + multiset{x}
  {
    if items != [] {
      assert items == [items[0]] + items[1..];
      InsertAdds(x, items[1..]);
    }
  }

  lemma {:induction false} InsertKeepsOrder(x: Image, items: seq<Image>)
    requires Sorted(items) && forall y :: y in items ==> y.path != x.path
    ensures Sorted(Insert(x, items))
  {
    if items != [] {
      BeforeTotal(At(x), At(items[0]));
      if Before(At(x), At(items[0])) {
        forall j | 0 <= j < |items| ensures Before(At(x), At(items[j])) {
          if j > 0 { BeforeTransitive(At(x), At(items[0]), At(items[j])); }
        }
      } else {
        var rest := Insert(x, items[1..]);
        InsertKeepsOrder(x, items[1..]);
        forall j | 0 <= j < |rest| ensures Before(At(items[0]), At(rest[j])) {
          InsertAdds(x, items[1..]);
          assert rest[j] in multiset(rest);
          assert rest[j] == x || rest[j] in items[1..];
        }
      }
    }
  }

  /** What a scan finds can be put in order. */
  lemma {:induction false} InOrder(found: seq<Image>) returns (items: seq<Image>)
    requires forall i, j :: 0 <= i < j < |found| ==> found[i].path != found[j].path
    ensures Sorted(items) && multiset(items) == multiset(found)
  {
    items := [];
    if found != [] {
      var n := |found| - 1;
      var rest := InOrder(found[..n]);
      assert found == found[..n] + [found[n]];
      forall y | y in rest ensures y.path != found[n].path {
        assert y in multiset(rest);
        assert y in found[..n];
      }
      items := Insert(found[n], rest);
      InsertKeepsOrder(found[n], rest);
      InsertAdds(found[n], rest);
    }
  }

  predicate Scans(s: State, a: Actor) { IsLoad(s, a) && s.workers[a].load.Scanning? }

  /** What the scan still has to walk. */
  function Ahead(p: LoadPhase): set<Path>
    requires p.Scanning?
  {
    set q | q in p.due && q !in p.walked
  }

  /** Only the one worker has moved on. */
  predicate OnlyMoves(s: State, t: State, a: Actor) {
    && IsLoad(s, a) && IsLoad(t, a) && t.workers[a].force == s.workers[a].force
    && t.workers == s.workers[a := t.workers[a]] && t == s.(workers := t.workers)
  }

  lemma MovesOn(s: State, t: State, u: State, a: Actor)
    requires OnlyMoves(s, t, a) && OnlyMoves(t, u, a)
    ensures OnlyMoves(s, u, a)
  {
  }

  lemma VisitGetsOn(s: State, a: Actor, p: Path)
    requires Inv(s) && Scans(s, a) && p in Ahead(s.workers[a].load)
    ensures Enabled(s, Visit(a, p))
    ensures var t := Apply(s, Visit(a, p));
      && Inv(t) && Scans(t, a) && OnlyMoves(s, t, a) && t.workers[a].load.due == s.workers[a].load.due
      && Ahead(t.workers[a].load) <= Ahead(s.workers[a].load) - {p}
  {
    var scan := s.workers[a].load;
    assert WorkerFine(s, a);
    StepKept(s, Visit(a, p));
    assert s.files[p].image.path == p && p in scan.walked + [p];
  }

  lemma {:induction false} WalkCanFinish(s: State, a: Actor) returns (events: seq<Event>)
    requires Inv(s) && Scans(s, a)
    ensures Run(s, events).Some?
    ensures var t := Run(s, events).value;
      && Inv(t) && Scans(t, a) && t.workers[a].load.due == s.workers[a].load.due && Ahead(t.workers[a].load) == {}
      && OnlyMoves(s, t, a)
    decreases Ahead(s.workers[a].load)
  {
    events := [];
    var scan := s.workers[a].load;
    if Ahead(scan) != {} {
      var p :| p in Ahead(scan);
      VisitGetsOn(s, a, p);
      var t := Apply(s, Visit(a, p));
      var rest := WalkCanFinish(t, a);
      events := [Visit(a, p)] + rest;
      assert events[1..] == rest;
      MovesOn(s, t, Run(t, rest).value, a);
    }
  }

  /** A scan can always be published: then its answer lists every listed file there when it began. */
  lemma ScanCanFinish(s: State, a: Actor) returns (events: seq<Event>)
    requires Inv(s) && Scans(s, a)
    ensures Run(s, events).Some?
    ensures var t := Run(s, events).value;
      && Inv(t) && t.cache.Some? && t.cache.value.at == s.clock && t.files == s.files
      && t == s.(workers := s.workers[a := Load(s.workers[a].force, Served(t.cache.value))], cache := t.cache, scanned := s.workers[a].load.due)
      && (forall x :: x in t.cache.value.items ==> Named(s.files, x))
      && (forall q :: q in s.workers[a].load.due && s.files[q].listed ==> s.files[q].image in t.cache.value.items)
  {
    var visits := WalkCanFinish(s, a);
    var t := Run(s, visits).value;
    assert WorkerFine(t, a);
    forall p | p in s.workers[a].load.due ensures p in t.workers[a].load.walked { assert p !in Ahead(t.workers[a].load); }
    var items := InOrder(t.workers[a].load.found);
    var publish := Publish(a, items, 0);
    events := visits + [publish];
    Runs.RunAppend(Next, s, visits, [publish]);
    assert [publish][1..] == [];
    ScansAreComplete(t, a, items, 0);
    StepKept(t, publish);
  }

  /** A delete of a listed file can always go through: the file is gone, and so is its cached item. */
  lemma DeleteCanFinish(s: State, a: Actor)
    requires Inv(s) && IsDelete(s, a) && s.workers[a].del.Mutating?
    requires s.workers[a].path in s.files && s.files[s.workers[a].path].listed
    ensures Run(s, [RemoveFile(a), Forget(a)]).Some?
    ensures var t := Run(s, [RemoveFile(a), Forget(a)]).value;
      && a in t.workers && t.workers[a] == Delete(s.workers[a].path, Forgotten(true))
      && t == s.(files := s.files - {s.workers[a].path}, workers := t.workers, cache := t.cache)
      && t.workers == s.workers[a := t.workers[a]]
      && !InCache(t, s.workers[a].path)
  {
    var t := Apply(s, RemoveFile(a));
    StepKept(s, RemoveFile(a));
    Runs.TwoSteps(Next, s, [RemoveFile(a), Forget(a)]);
    var forget := [Forget(a)];
    assert forget[1..] == [] && forget + [] == forget;
    assert Run(t, forget) == Next(t, Forget(a));
    DeletedImageIsNeverListed(t, a, []);
  }

  function Beginning(a: Actor): seq<Event> { [Start(a, Load(true, Asking)), TakeScan(a), TakeMutation(a)] }

  lemma BeginAlone(s: State, a: Actor)
    requires s.scan.None? && s.mutation.None? && a !in s.workers
    ensures Run(s, Beginning(a)) == Some(s.(
      workers := s.workers[a := Load(true, Scanning(s.files.Keys, [], [], 0, 0))], scan := Some(a), mutation := Some(a)))
  {
    var e := Beginning(a);
    var s1 := Apply(s, e[0]);
    var s2 := Apply(s1, e[1]);
    var s3 := Apply(s2, e[2]);
    assert s3.workers == s.workers[a := Load(true, Scanning(s.files.Keys, [], [], 0, 0))];
    Runs.TraceRuns(Next, [s, s1, s2, s3], e);
  }

  /**
   When neither mutex is held, a forced load lists exactly the listed files there are, replaces the
   cached snapshot, and gives both mutexes back.
   */
  lemma ForcedLoadAlone(s: State, a: Actor) returns (events: seq<Event>)
    requires Inv(s) && s.scan.None? && s.mutation.None? && a !in s.workers
    ensures Run(s, events).Some?
    ensures var t := Run(s, events).value;
      && Inv(t) && t == s.(cache := t.cache, scanned := s.files.Keys)
      && t.cache.Some? && t.cache.value.at == s.clock && Sorted(t.cache.value.items)
      && (forall x :: x in t.cache.value.items <==> Named(s.files, x))
  {
    var begin := Beginning(a);
    BeginAlone(s, a);
    RunKept(s, begin);
    var s3 := Run(s, begin).value;
    var scan := ScanCanFinish(s3, a);
    var s4 := Run(s3, scan).value;
    var t := Apply(s4, Finish(a));
    StepKept(s4, Finish(a));
    assert t.workers == s.workers;
    Runs.TraceRuns(Next, [s4, t], [Finish(a)]);
    events := begin + (scan + [Finish(a)]);
    Runs.RunAppend(Next, s, begin, scan + [Finish(a)]);
    Runs.RunAppend(Next, s3, scan, [Finish(a)]);
  }

  /** A supported image copied into the directory is on the next forced listing. */
  lemma CopiedImageIsListed(s: State, f: Stored, a: Actor) returns (events: seq<Event>)
    requires Inv(s) && s.scan.None? && s.mutation.None? && a !in s.workers
    requires f.image.path !in s.names && f.listed
    ensures Run(s, [CopyIn(f)] + events).Some?
    ensures var t := Run(s, [CopyIn(f)] + events).value;
      t.files == s.files[f.image.path := f] && t.cache.Some? && f.image in t.cache.value.items
  {
    StepKept(s, CopyIn(f));
    events := ForcedLoadAlone(Apply(s, CopyIn(f)), a);
    assert ([CopyIn(f)] + events)[1..] == events;
  }

  /** When the mutation mutex is free, a delete removes one listed file and its cached item, and gives the mutex back. */
  lemma DeleteAlone(s: State, a: Actor, path: Path)
    requires Inv(s) && s.mutation.None? && a !in s.workers && path in s.files && s.files[path].listed
    ensures Run(s, DeleteEvents(a, path)).Some?
    ensures var t := Run(s, DeleteEvents(a, path)).value;
      t == s.(files := s.files - {path}, cache := t.cache) && !InCache(t, path)
  {
    var begin := [Start(a, Delete(path, Requested)), TakeMutation(a)];
    var s1 := Apply(s, begin[0]);
    var s2 := Apply(s1, begin[1]);
    Runs.TraceRuns(Next, [s, s1, s2], begin);
    RunKept(s, begin);
    DeleteCanFinish(s2, a);
    var write := [RemoveFile(a), Forget(a)];
    var s3 := Run(s2, write).value;
    var t := Apply(s3, Finish(a));
    assert t.workers == s.workers;
    Runs.TraceRuns(Next, [s3, t], [Finish(a)]);
    Runs.RunAppend(Next, s, begin, write + [Finish(a)]);
    Runs.RunAppend(Next, s2, write, [Finish(a)]);
  }

  function DeleteEvents(a: Actor, path: Path): seq<Event> {
    [Start(a, Delete(path, Requested)), TakeMutation(a)] + ([RemoveFile(a), Forget(a)] + [Finish(a)])
  }

  /** After half an hour, and after a crash, nothing is served from the cache. */
  lemma CacheIsForgotten(s0: State, events: seq<Event>, a: Actor)
    requires Initial(s0) && Run(s0, events).Some?
    ensures var s := Run(s0, events).value;
      && !Enabled(Apply(s, Tick(1_800_000_000_000)), UseFresh(a)) && !Enabled(Apply(s, Restart), UseFresh(a))
      && Apply(s, Restart).files == s.files && Apply(s, Restart).scan.None? && Apply(s, Restart).mutation.None?
      && Apply(s, Restart).cache.None? && Apply(s, Restart).workers == map[]
  {
    InitialFine(s0);
    RunKept(s0, events);
  }
}
