/** What a rebuild and a run of the daily cleaner do when nobody holds a lock, for any number of images. */
module StoreRequests {
  import opened Base
  import opened Delivery
  import opened Loader
  import opened Protocol
  import opened Requests
  import Runs

  // ---------------------------------------------------------------- rebuild

  function Checks(todo: map<Uuid, Row>, targets: map<Uuid, Target>): Job { Rebuild(Checking(todo, targets)) }

  /** The targets when all rows still to check have been checked. */
  function Completed(todo: map<Uuid, Row>, targets: map<Uuid, Target>, files: map<Uuid, File>): map<Uuid, Target> {
    targets + BuildTargets(todo, files)
  }

  lemma CheckOne(s: State, a: Actor, todo: map<Uuid, Row>, targets: map<Uuid, Target>, id: Uuid, h: Held)
    requires id in todo
    ensures Next(Having(s, a, Checks(todo, targets), h), OfRebuild(a, CheckFile(id)))
         == Some(Having(s, a, Checks(todo - {id}, WithRow(targets, id, todo[id], s.disk.files)), h))
  {
    Goes(s, a, Checks(todo, targets), h, Checks(todo - {id}, WithRow(targets, id, todo[id], s.disk.files)));
  }

  function WithRow(targets: map<Uuid, Target>, id: Uuid, row: Row, files: map<Uuid, File>): map<Uuid, Target> {
    if Stored(files, row) then targets[id := Rebuilt(row)] else targets
  }

  lemma CompletedInSteps(todo: map<Uuid, Row>, targets: map<Uuid, Target>, files: map<Uuid, File>, id: Uuid)
    requires id in todo
    ensures Completed(todo - {id}, WithRow(targets, id, todo[id], files), files) == Completed(todo, targets, files)
  {
  }

  /** Rows are checked one by one, in any order. */
  lemma {:induction false} CheckAll(s: State, a: Actor, todo: map<Uuid, Row>, targets: map<Uuid, Target>, h: Held) returns (events: seq<Event>)
    ensures Run(Having(s, a, Checks(todo, targets), h), events)
         == Some(Having(s, a, Checks(map[], Completed(todo, targets, s.disk.files)), h))
    decreases todo.Keys
  {
    events := [];
    if todo == map[] {
      assert Completed(todo, targets, s.disk.files) == targets;
    } else {
      var id :| id in todo;
      CheckOne(s, a, todo, targets, id, h);
      CompletedInSteps(todo, targets, s.disk.files, id);
      var more := WithRow(targets, id, todo[id], s.disk.files);
      assert (todo - {id}).Keys < todo.Keys;
      var rest := CheckAll(s, a, todo - {id}, more, h);
      events := [OfRebuild(a, CheckFile(id))] + rest;
      assert events[1..] == rest;
    }
  }

  lemma ReadStep(s: State, a: Actor, h: Held)
    requires h.barrier
    ensures Next(Having(s, a, Rebuild(ToBuild), h), OfRebuild(a, ReadRows)) == Some(Having(s, a, Checks(s.db.rows, map[]), h))
  {
    Goes(s, a, Rebuild(ToBuild), h, Checks(s.db.rows, map[]));
  }

  lemma AliasesStep(s: State, a: Actor, targets: map<Uuid, Target>, h: Held)
    ensures Next(Having(s, a, Checks(map[], targets), h), OfRebuild(a, ReadAliases))
         == Some(Having(s, a, Rebuild(Built(View(targets, BuildAliases(s.db.aliases, targets)))), h))
  {
    Goes(s, a, Checks(map[], targets), h, Rebuild(Built(View(targets, BuildAliases(s.db.aliases, targets)))));
  }

  lemma SwapStep(s: State, a: Actor, view: View, h: Held)
    ensures Next(Having(s, a, Rebuild(Built(view)), h), OfRebuild(a, Swap)) == Some(Having(s.(index := view), a, Rebuild(Swapped), h))
  {
    Goes(s.(index := view), a, Rebuild(Built(view)), h, Rebuild(Swapped));
  }

  lemma SwapRuns(s: State, a: Actor, targets: map<Uuid, Target>, h: Held)
    requires a !in s.workers
    ensures Run(Having(s, a, Checks(map[], targets), h), [OfRebuild(a, ReadAliases), OfRebuild(a, Swap), Finish(a)])
         == Some(s.(index := View(targets, BuildAliases(s.db.aliases, targets)), locks := FREE))
  {
    var view := View(targets, BuildAliases(s.db.aliases, targets));
    var s1 := s.(index := view);
    AliasesStep(s, a, targets, h);
    SwapStep(s, a, view, h);
    Returns(s1, a, Rebuild(Swapped), h);
    Runs.TraceRuns(Next, [Having(s, a, Checks(map[], targets), h), Having(s, a, Rebuild(Built(view)), h),
                          Having(s1, a, Rebuild(Swapped), h), s1.(locks := FREE)],
                   [OfRebuild(a, ReadAliases), OfRebuild(a, Swap), Finish(a)]);
  }

  lemma RebuildRuns(s: State, a: Actor) returns (events: seq<Event>)
    requires Free(s) && a !in s.workers
    ensures Run(s, events) == Some(s.(index := BuildView(s.db, s.disk.files)))
  {
    var job := Rebuild(ToBuild);
    var h := AllLocks(job);
    var checks := CheckAll(s, a, s.db.rows, map[], h);
    var targets := Completed(s.db.rows, map[], s.disk.files);
    var swap := [OfRebuild(a, ReadAliases), OfRebuild(a, Swap), Finish(a)];
    assert targets == BuildTargets(s.db.rows, s.disk.files);
    Starts(s, a, job);
    OneLock(s, a, job, NoLocks);
    ReadStep(s, a, h);
    var begin := [Start(a, job), Lock(a), OfRebuild(a, ReadRows)];
    Runs.TraceRuns(Next, [s, Having(s, a, job, NoLocks), Having(s, a, job, h), Having(s, a, Checks(s.db.rows, map[]), h)], begin);
    SwapRuns(s, a, targets, h);
    events := begin + (checks + swap);
    Runs.RunAppend(Next, s, begin, checks + swap);
    Runs.RunAppend(Next, Having(s, a, Checks(s.db.rows, map[]), h), checks, swap);
  }

  /** A rebuild serves exactly what rows and files say, and changes nothing else. */
  lemma RebuildAlone(s: State, a: Actor) returns (events: seq<Event>)
    requires Free(s) && a !in s.workers
    ensures Run(s, events).Some?
    ensures var t := Run(s, events).value;
      Ends(s, t) && t.db == s.db && t.disk == s.disk && Serves(t.index, s.db, s.disk.files)
  {
    events := RebuildRuns(s, a);
    BuildViewServes(s.db, s.disk.files);
  }

  /** A crash loses every request in flight, keeps rows and files, and serves what they say. */
  lemma RestartServes(s: State)
    ensures var t := Apply(s, Restart);
      && t.workers == map[] && t.locks == FREE && t.db == s.db && t.disk == s.disk && t.clock == s.clock && t.past == s.past
      && Serves(t.index, s.db, s.disk.files)
  {
    BuildViewServes(s.db, s.disk.files);
  }

  // ---------------------------------------------------------------- the daily cleaner

  /** Files and thumbnails without the given ones. */
  function Swept(s: State, files: set<Uuid>, thumbs: set<Uuid>): State {
    s.(disk := Disk(s.disk.files - files, s.disk.thumbs - thumbs), past := s.past.(swept := s.past.swept + files))
  }

  lemma SweepOne(s: State, a: Actor, job: Job, k: Uuid)
    requires job.Daily? && job.day.FilesListed?
    ensures k in job.day.doomed ==>
      Next(Having(s, a, job, NoLocks), OfDaily(a, SweepFile(k))) == Some(Having(Swept(s, {k}, {}), a, job, NoLocks))
    ensures k in job.day.doomedThumbs ==>
      Next(Having(s, a, job, NoLocks), OfDaily(a, SweepThumb(k))) == Some(Having(Swept(s, {}, {k}), a, job, NoLocks))
  {
    assert s.disk.thumbs - {} == s.disk.thumbs && s.disk.files - {} == s.disk.files && s.past.swept + {} == s.past.swept;
  }

  lemma SweptTwice(s: State, files: set<Uuid>, thumbs: set<Uuid>, k: Uuid)
    ensures k in files ==> Swept(Swept(s, {k}, {}), files - {k}, thumbs) == Swept(s, files, thumbs)
    ensures k in thumbs ==> Swept(Swept(s, {}, {k}), files, thumbs - {k}) == Swept(s, files, thumbs)
    ensures Swept(Swept(s, files, {}), {}, thumbs) == Swept(s, files, thumbs) && Swept(s, {}, {}) == s
  {
    var t := Swept(s, files, thumbs);
    if k in files {
      var u := Swept(Swept(s, {k}, {}), files - {k}, thumbs);
      assert u.disk.files == t.disk.files && u.disk.thumbs == t.disk.thumbs && u.past.swept == t.past.swept;
    }
    if k in thumbs {
      var u := Swept(Swept(s, {}, {k}), files, thumbs - {k});
      assert u.disk.files == t.disk.files && u.disk.thumbs == t.disk.thumbs && u.past.swept == t.past.swept;
    }
    var u := Swept(Swept(s, files, {}), {}, thumbs);
    assert u.disk.files == t.disk.files && u.disk.thumbs == t.disk.thumbs && u.past.swept == t.past.swept;
    assert s.disk.thumbs - {} == s.disk.thumbs && s.disk.files - {} == s.disk.files && s.past.swept + {} == s.past.swept;
  }

  lemma {:induction false} SweepFiles(s: State, a: Actor, job: Job, files: set<Uuid>) returns (events: seq<Event>)
    requires job.Daily? && job.day.FilesListed? && files <= job.day.doomed
    ensures Run(Having(s, a, job, NoLocks), events) == Some(Having(Swept(s, files, {}), a, job, NoLocks))
    decreases files
  {
    events := [];
    if files == {} {
      SweptTwice(s, {}, {}, 0);
    } else {
      var k :| k in files;
      SweepOne(s, a, job, k);
      SweptTwice(s, files, {}, k);
      var rest := SweepFiles(Swept(s, {k}, {}), a, job, files - {k});
      events := [OfDaily(a, SweepFile(k))] + rest;
      assert events[1..] == rest;
    }
  }

  lemma {:induction false} SweepThumbs(s: State, a: Actor, job: Job, thumbs: set<Uuid>) returns (events: seq<Event>)
    requires job.Daily? && job.day.FilesListed? && thumbs <= job.day.doomedThumbs
    ensures Run(Having(s, a, job, NoLocks), events) == Some(Having(Swept(s, {}, thumbs), a, job, NoLocks))
    decreases thumbs
  {
    events := [];
    if thumbs == {} {
      SweptTwice(s, {}, {}, 0);
    } else {
      var k :| k in thumbs;
      SweepOne(s, a, job, k);
      SweptTwice(s, {}, thumbs, k);
      var rest := SweepThumbs(Swept(s, {}, {k}), a, job, thumbs - {k});
      events := [OfDaily(a, SweepThumb(k))] + rest;
      assert events[1..] == rest;
    }
  }

  function Listing(a: Actor, now: Instant): seq<Event> {
    [Start(a, Daily(now, ToScan)), OfDaily(a, ScanRows), OfDaily(a, ListImages), OfDaily(a, ListThumbs)]
  }

  function Found(s: State, now: Instant): Job {
    Daily(now, FilesListed(OldFiles(s.disk, StorageKeys(s.db.rows), now), OldThumbs(s.disk, s.db.rows.Keys, now)))
  }

  lemma ListingRuns(s: State, a: Actor, now: Instant)
    requires Free(s) && a !in s.workers && now <= s.clock
    ensures Run(s, Listing(a, now)) == Some(Having(s, a, Found(s, now), NoLocks))
  {
    var keys, ids := StorageKeys(s.db.rows), s.db.rows.Keys;
    var first, second := Daily(now, ToScan), Daily(now, RowsRead(keys, ids));
    var third := Daily(now, ImagesListed(OldFiles(s.disk, keys, now), ids));
    Starts(s, a, first);
    Goes(s, a, first, NoLocks, second);
    Goes(s, a, second, NoLocks, third);
    Goes(s, a, third, NoLocks, Found(s, now));
    Runs.TraceRuns(Next, [s, Having(s, a, first, NoLocks), Having(s, a, second, NoLocks), Having(s, a, third, NoLocks),
                          Having(s, a, Found(s, now), NoLocks)], Listing(a, now));
  }

  lemma FinishRuns(s: State, a: Actor, job: Job)
    requires a !in s.workers && job.Daily? && Free(s)
    ensures Run(Having(s, a, job, NoLocks), [Finish(a)]) == Some(s)
  {
    Returns(s, a, job, NoLocks);
    Runs.TraceRuns(Next, [Having(s, a, job, NoLocks), s], [Finish(a)]);
  }

  lemma DailyRuns(s: State, a: Actor, now: Instant) returns (events: seq<Event>)
    requires Free(s) && a !in s.workers && now <= s.clock
    ensures Run(s, events) ==
      Some(Swept(s, OldFiles(s.disk, StorageKeys(s.db.rows), now), OldThumbs(s.disk, s.db.rows.Keys, now)))
  {
    var job := Found(s, now);
    var doomed, thumbs := job.day.doomed, job.day.doomedThumbs;
    var s1 := Swept(s, doomed, {});
    var t := Swept(s, doomed, thumbs);
    ListingRuns(s, a, now);
    var files := SweepFiles(s, a, job, doomed);
    var rest := SweepThumbs(s1, a, job, thumbs);
    SweptTwice(s, doomed, thumbs, 0);
    FinishRuns(t, a, job);
    events := Listing(a, now) + (files + (rest + [Finish(a)]));
    Runs.RunAppend(Next, s, Listing(a, now), files + (rest + [Finish(a)]));
    Runs.RunAppend(Next, Having(s, a, job, NoLocks), files, rest + [Finish(a)]);
    Runs.RunAppend(Next, Having(s1, a, job, NoLocks), rest, [Finish(a)]);
  }

  /** The cleaner removes what no row names and is a day old, and nothing else. */
  lemma DailyAlone(s: State, a: Actor, now: Instant) returns (events: seq<Event>)
    requires Free(s) && a !in s.workers && now <= s.clock
    ensures Run(s, events).Some?
    ensures var t := Run(s, events).value;
      && Ends(s, t) && t.db == s.db && t.index == s.index
      && (forall k :: k in t.disk.files <==>
            k in s.disk.files && ((exists id :: id in s.db.rows && s.db.rows[id].key == k)
                                  || now < s.disk.files[k].written + 86_400_000_000_000))
      && (forall k :: k in t.disk.files ==> t.disk.files[k] == s.disk.files[k])
      && (forall i :: i in t.disk.thumbs <==>
            i in s.disk.thumbs && (i in s.db.rows || now < s.disk.thumbs[i] + 86_400_000_000_000))
      && (forall i :: i in t.disk.thumbs ==> t.disk.thumbs[i] == s.disk.thumbs[i])
  {
    events := DailyRuns(s, a, now);
    forall k ensures k in StorageKeys(s.db.rows) <==> exists id :: id in s.db.rows && s.db.rows[id].key == k {}
  }
}
