/**
 The daily cleaner can overtake a deletion: a run in which an image is still served after its
 file was removed, because the cleaner scanned between the row write and the index write.
 */
module Overtaking {
  import opened Base
  import opened Delivery
  import opened Loader
  import opened Protocol
  import opened Agreement
  import Runs

  function OldRow(): Row {
    Row(0, "image/png", seq(32, i => 0), 1, 0, 0, Public, "old.png")
  }

  function OldDraft(): Draft { Draft(0, OldRow(), 0, None, 0) }

  const ISSUED := History(map[0 := KeyInfo(0, 0)], map[0 := 0], map[], {}, {})

  function Empty(): State {
    State(Database(map[], map[]), Disk(map[], map[]), View(map[], map[]), map[], FREE, 0,
          History(map[], map[], map[], {}, {}))
  }

  /** The draft's file is committed and its locks are taken. */
  function Drafted(): State {
    Empty().(disk := Disk(map[0 := File(1, 0)], map[]),
             workers := map[0 := Worker(Publish(OldDraft(), Filed), Held(true, false, true))],
             locks := LockTable(map[0 := 0], map[], {0}, None), past := ISSUED)
  }

  /** The image is stored and served. */
  function Published0(): State {
    Drafted().(db := Database(map[0 := OldRow()], map[]), index := View(map[0 := Published(OldRow(), 0)], map[]),
               workers := map[0 := Worker(Publish(OldDraft(), Listed), Held(true, false, true))],
               past := ISSUED.(born := {0}))
  }

  /** The image is published and has grown old. */
  function AtRest(): State {
    State(Database(map[0 := OldRow()], map[]), Disk(map[0 := File(1, 0)], map[]),
          View(map[0 := Published(OldRow(), 0)], map[]), map[], FREE, SAFETY_AGE, ISSUED.(born := {0}))
  }

  /** Its row is deleted; its target is still served. */
  function RowDeleted(): State {
    AtRest().(db := Database(map[], map[]),
              workers := map[1 := Worker(Remove(0, RowGone(0)), Held(true, false, true))],
              locks := LockTable(map[0 := 1], map[], {1}, None))
  }

  function Drafting(): seq<Event> {
    [Start(0, Publish(OldDraft(), Staged)), OfPublish(0, CommitFile), Lock(0), Lock(0)]
  }

  function Publishing(): seq<Event> { [OfPublish(0, InsertRows), OfPublish(0, ShowTarget)] }

  function Aging(): seq<Event> { [Finish(0), Tick(SAFETY_AGE)] }

  function Deleting(): seq<Event> {
    [Start(1, Remove(0, ToRemove)), Lock(1), Lock(1), OfRemove(1, DeleteRow)]
  }

  function ScanningRows(): seq<Event> { [Start(2, Daily(SAFETY_AGE, ToScan)), OfDaily(2, ScanRows)] }

  function ScanningFiles(): seq<Event> { [OfDaily(2, ListImages), OfDaily(2, ListThumbs)] }

  function Sweeping(): seq<Event> { [OfDaily(2, SweepFile(0))] }

  /** The cleaner has found no row. */
  function RowsScanned(): State {
    RowDeleted().(workers := map[1 := RowDeleted().workers[1], 2 := Worker(Daily(SAFETY_AGE, RowsRead({}, {})), NoLocks)])
  }

  /** The cleaner has read the rows, listed both directories, and found the file unreferenced. */
  function Scanned(): State {
    RowDeleted().(workers := map[1 := RowDeleted().workers[1], 2 := Worker(Daily(SAFETY_AGE, FilesListed({0}, {})), NoLocks)])
  }

  /** States are equal when their maps are, entry by entry. */
  lemma SameState(s: State, t: State)
    requires s.db.rows == t.db.rows && s.db.aliases == t.db.aliases
    requires s.disk.files == t.disk.files && s.disk.thumbs == t.disk.thumbs
    requires s.index.byID == t.index.byID && s.index.aliases == t.index.aliases
    requires s.workers == t.workers && s.clock == t.clock && s.past == t.past
    requires s.locks.image == t.locks.image && s.locks.path == t.locks.path
    requires s.locks.readers == t.locks.readers && s.locks.writer == t.locks.writer
    ensures s == t
  {
  }

  lemma DraftingRun()
    ensures Run(Empty(), Drafting()) == Some(Drafted())
  {
    var e := Drafting();
    var s1 := Apply(Empty(), e[0]);
    assert s1 == Empty().(workers := map[0 := Worker(Publish(OldDraft(), Staged), NoLocks)], past := ISSUED);
    Runs.FourSteps(Next, Empty(), e);
    SameState(Run(Empty(), e).value, Drafted());
  }

  lemma PublishingRun()
    ensures Run(Drafted(), Publishing()) == Some(Published0())
  {
    Runs.TwoSteps(Next, Drafted(), Publishing());
    SameState(Run(Drafted(), Publishing()).value, Published0());
  }

  lemma AgingRun()
    ensures Run(Published0(), Aging()) == Some(AtRest())
  {
    Runs.TwoSteps(Next, Published0(), Aging());
    SameState(Run(Published0(), Aging()).value, AtRest());
  }

  lemma DeletingRun()
    ensures Run(AtRest(), Deleting()) == Some(RowDeleted())
  {
    Runs.FourSteps(Next, AtRest(), Deleting());
    SameState(Run(AtRest(), Deleting()).value, RowDeleted());
  }

  lemma ScanningRowsRun()
    ensures Run(RowDeleted(), ScanningRows()) == Some(RowsScanned())
  {
    assert StorageKeys(RowDeleted().db.rows) == {} && RowDeleted().db.rows.Keys == {};
    Runs.TwoSteps(Next, RowDeleted(), ScanningRows());
    SameState(Run(RowDeleted(), ScanningRows()).value, RowsScanned());
  }

  lemma ScanningFilesRun()
    ensures Run(RowsScanned(), ScanningFiles()) == Some(Scanned())
  {
    assert OldFiles(RowsScanned().disk, {}, SAFETY_AGE) == {0} && OldThumbs(RowsScanned().disk, {}, SAFETY_AGE) == {};
    Runs.TwoSteps(Next, RowsScanned(), ScanningFiles());
    SameState(Run(RowsScanned(), ScanningFiles()).value, Scanned());
  }

  lemma SweepingRun()
    ensures Run(Scanned(), Sweeping()).Some? && ServedFileMissing(Run(Scanned(), Sweeping()).value, 0)
  {
    assert Sweeping()[1..] == [];
    assert Run(Scanned(), Sweeping()) == Runs.Run(Next, Apply(Scanned(), OfDaily(2, SweepFile(0))), []);
  }

  /** From the start until the row is deleted, and from there until the file is gone. */
  function UntilDeleted(): seq<Event> { Drafting() + Publishing() + Aging() + Deleting() }

  function Overtaking(): seq<Event> { UntilDeleted() + ScanningRows() + ScanningFiles() + Sweeping() }

  lemma UntilDeletedRun()
    ensures Run(Empty(), UntilDeleted()) == Some(RowDeleted())
  {
    DraftingRun();
    PublishingRun();
    AgingRun();
    DeletingRun();
    Runs.RunAppend(Next, Empty(), Drafting(), Publishing());
    Runs.RunAppend(Next, Empty(), Drafting() + Publishing(), Aging());
    Runs.RunAppend(Next, Empty(), Drafting() + Publishing() + Aging(), Deleting());
  }

  /** So "every served target names a file" fails of the code when the cleaner runs. */
  lemma CleanerOvertakesDeletion()
    ensures Initial(Empty()) && Run(Empty(), Overtaking()).Some?
    ensures ServedFileMissing(Run(Empty(), Overtaking()).value, 0)
  {
    UntilDeletedRun();
    ScanningRowsRun();
    ScanningFilesRun();
    SweepingRun();
    Runs.RunAppend(Next, Empty(), UntilDeleted(), ScanningRows());
    Runs.RunAppend(Next, Empty(), UntilDeleted() + ScanningRows(), ScanningFiles());
    Runs.RunAppend(Next, Empty(), UntilDeleted() + ScanningRows() + ScanningFiles(), Sweeping());
  }
}
