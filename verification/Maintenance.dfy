/**
 Inspection and daily cleanup (internal/maintenance/service.go), as loops over listings. The rows
 and files here are those one run sees; Agreement covers what happens around it.
 */
module Maintenance {
  import opened Base
  import opened Delivery
  import opened Loader

  const MAX_REPORTED: nat := 100

  datatype Entry = Entry(size: nat, modified: Instant, regular: bool)

  type Entries = map<Uuid, Entry>

  /** The three directories of a data volume. */
  datatype Volume = Volume(images: Entries, thumbs: Entries, temps: Entries)

  datatype Inspection = Inspection(
    databaseImages: nat, imageFiles: int, thumbnailFiles: int, temporaryFiles: int,
    missingImages: nat, missingIds: seq<Uuid>, orphanImages: int, orphanThumbnails: int)

  /** A listing of each directory, and the rows in query order. */
  datatype Listing = Listing(rows: seq<Uuid>, images: seq<Uuid>, thumbs: seq<Uuid>, temps: seq<Uuid>)

  ghost predicate Lists(l: Listing, rows: map<Uuid, Row>, v: Volume) {
    && Enumerates(l.rows, rows.Keys) && Enumerates(l.images, v.images.Keys)
    && Enumerates(l.thumbs, v.thumbs.Keys) && Enumerates(l.temps, v.temps.Keys)
  }

  // ---------------------------------------------------------------- what an inspection reports

  /** A row's file is present when it is a regular file of the recorded size. */
  predicate Present(row: Row, images: Entries) {
    row.key in images && images[row.key].regular && images[row.key].size == row.size
  }

  function MissingRows(rows: map<Uuid, Row>, images: Entries): set<Uuid> {
    set id | id in rows && !Present(rows[id], images)
  }

  function Orphans(entries: Entries, referenced: set<Uuid>): set<Uuid> {
    set k | k in entries && (k !in referenced || !entries[k].regular)
  }

  /** Unreferenced regular files at least `age` old; an age of zero means a day. */
  function Doomed(entries: Entries, referenced: set<Uuid>, age: nat, now: Instant): set<Uuid> {
    set k | k in entries && k !in referenced && entries[k].regular && entries[k].modified + age <= now
  }

  function FirstReported(ids: seq<Uuid>): seq<Uuid> {
    if |ids| <= MAX_REPORTED then ids else ids[..MAX_REPORTED]
  }

  /** The report of an inspection, by sets rather than loops. */
  function Reported(rows: map<Uuid, Row>, order: seq<Uuid>, v: Volume): Inspection {
    var missing := Filter(order, MissingRows(rows, v.images));
    Inspection(|rows|, |v.images|, |v.thumbs|, |v.temps|, |missing|, FirstReported(missing),
               |Orphans(v.images, StorageKeys(rows))|, |Orphans(v.thumbs, rows.Keys)|)
  }

  // ---------------------------------------------------------------- counting with loops

  lemma {:induction false} FilterSize(order: seq<Uuid>, i: nat, keep: set<Uuid>)
    requires i <= |order| && Once(order)
    ensures |Filter(order[..i], keep)| == |Visited(order, i, keep)|
  {
    if i == 0 {
      assert Visited(order, 0, keep) == {};
    } else {
      FilterSize(order, i - 1, keep);
      FilterStep(order, keep, i - 1);
      VisitedStep(order, i - 1, keep);
    }
  }

  lemma AllOf(order: seq<Uuid>, keys: set<Uuid>, keep: set<Uuid>)
    requires Enumerates(order, keys) && keep <= keys
    ensures |Filter(order, keep)| == |keep|
  {
    FilterSize(order, |order|, keep);
    VisitedAll(order, keys, keep);
    assert order[..|order|] == order;
  }

  method CountOrphans(entries: Entries, order: seq<Uuid>, referenced: set<Uuid>) returns (count: nat)
    requires Enumerates(order, entries.Keys)
    ensures count == |Orphans(entries, referenced)|
  {
    count := 0;
    ghost var orphans := Orphans(entries, referenced);
    for i := 0 to |order|
      invariant count == |Filter(order[..i], orphans)|
    {
      FilterStep(order, orphans, i);
      assert order[i] in order && order[i] in entries.Keys;
      if order[i] !in referenced || !entries[order[i]].regular { count := count + 1; }
    }
    assert order[..|order|] == order;
    AllOf(order, entries.Keys, orphans);
  }

  method AppendLimited(values: seq<Uuid>, addition: Uuid) returns (r: seq<Uuid>)
    requires |values| <= MAX_REPORTED
    ensures r == FirstReported(values + [addition])
  {
    var remaining := MAX_REPORTED - |values|;
    r := if remaining <= 0 then values else values + [addition];
  }

  /** The records as two sets: the keys and the ids in use. */
  method ReadRecords(rows: map<Uuid, Row>, order: seq<Uuid>) returns (referenced: set<Uuid>, ids: set<Uuid>)
    requires Enumerates(order, rows.Keys)
    ensures referenced == StorageKeys(rows) && ids == rows.Keys
  {
    referenced, ids := {}, {};
    assert forall id :: id in rows.Keys <==> id in order;
    for i := 0 to |order|
      invariant ids == (set id | id in order[..i])
      invariant forall k :: k in referenced <==> exists id :: id in ids && id in rows && rows[id].key == k
    {
      assert order[..i + 1] == order[..i] + [order[i]] && order[i] in order && order[i] in rows;
      referenced, ids := referenced + {rows[order[i]].key}, ids + {order[i]};
    }
    assert order[..|order|] == order;
    assert ids == rows.Keys;
  }

  lemma ListingSizes(l: Listing, rows: map<Uuid, Row>, v: Volume)
    requires Lists(l, rows, v)
    ensures |l.rows| == |rows| && |l.images| == |v.images| && |l.thumbs| == |v.thumbs| && |l.temps| == |v.temps|
  {
    EnumerationSize(l.rows, rows.Keys);
    EnumerationSize(l.images, v.images.Keys);
    EnumerationSize(l.thumbs, v.thumbs.Keys);
    EnumerationSize(l.temps, v.temps.Keys);
    assert |rows| == |rows.Keys| && |v.images| == |v.images.Keys| && |v.thumbs| == |v.thumbs.Keys| && |v.temps| == |v.temps.Keys|;
  }

  /** Some row names the file. */
  predicate Named(rows: map<Uuid, Row>, key: Uuid) { exists id :: id in rows && rows[id].key == key }

  /** The report in terms of rows and files. */
  ghost predicate Reports(r: Inspection, rows: map<Uuid, Row>, order: seq<Uuid>, v: Volume) {
    && r.databaseImages == |rows| && r.imageFiles == |v.images|
    && r.thumbnailFiles == |v.thumbs| && r.temporaryFiles == |v.temps|
    && r.orphanImages == |set k | k in v.images && !(v.images[k].regular && Named(rows, k))|
    && r.orphanThumbnails == |set k | k in v.thumbs && !(v.thumbs[k].regular && k in rows)|
    && exists missing: seq<Uuid> ::
         && ListsInOrder(missing, order, id => id in rows && LacksFile(rows[id], v.images))
         && r.missingImages == |missing| && r.missingIds == if |missing| > 100 then missing[..100] else missing
  }

  predicate LacksFile(row: Row, images: Entries) {
    row.key !in images || !images[row.key].regular || images[row.key].size != row.size
  }

  lemma ReportedReports(rows: map<Uuid, Row>, order: seq<Uuid>, v: Volume)
    requires Enumerates(order, rows.Keys)
    ensures Reports(Reported(rows, order, v), rows, order, v)
  {
    var missing := Filter(order, MissingRows(rows, v.images));
    FilterInOrder(order, MissingRows(rows, v.images));
    assert ListsInOrder(missing, order, id => id in rows && LacksFile(rows[id], v.images));
    assert forall k :: k in StorageKeys(rows) <==> Named(rows, k);
    assert Orphans(v.images, StorageKeys(rows)) == (set k | k in v.images && !(v.images[k].regular && Named(rows, k)));
    assert Orphans(v.thumbs, rows.Keys) == (set k | k in v.thumbs && !(v.thumbs[k].regular && k in rows));
  }

  method Scan(rows: map<Uuid, Row>, v: Volume, l: Listing) returns (r: Inspection)
    requires Lists(l, rows, v)
    ensures r == Reported(rows, l.rows, v) && Reports(r, rows, l.rows, v)
  {
    var referenced, ids := ReadRecords(rows, l.rows);
    var orphans := CountOrphans(v.images, l.images, referenced);
    var missing, reported := CountMissing(rows, l.rows, v.images);
    var orphanThumbs := CountOrphans(v.thumbs, l.thumbs, ids);
    ListingSizes(l, rows, v);
    ReportedReports(rows, l.rows, v);
    r := Inspection(|l.rows|, |l.images|, |l.thumbs|, |l.temps|, missing, reported, orphans, orphanThumbs);
  }

  method CountMissing(rows: map<Uuid, Row>, order: seq<Uuid>, images: Entries) returns (count: nat, reported: seq<Uuid>)
    requires Enumerates(order, rows.Keys)
    ensures count == |Filter(order, MissingRows(rows, images))|
    ensures reported == FirstReported(Filter(order, MissingRows(rows, images)))
  {
    count, reported := 0, [];
    ghost var missing := MissingRows(rows, images);
    for i := 0 to |order|
      invariant count == |Filter(order[..i], missing)|
      invariant reported == FirstReported(Filter(order[..i], missing))
    {
      FilterStep(order, missing, i);
      assert order[i] in order && order[i] in rows.Keys;
      if !Present(rows[order[i]], images) {
        count := count + 1;
        reported := AppendLimited(reported, order[i]);
      }
    }
    assert order[..|order|] == order;
  }

  // ---------------------------------------------------------------- the daily cleanup

  datatype Verdict = Spared | Swept | Stuck

  /** Whether a listed file is removed, or its removal fails. */
  function Judge(entry: Entry, key: Uuid, referenced: set<Uuid>, age: nat, now: Instant, failing: set<Uuid>): Verdict {
    if key in referenced || !entry.regular || entry.modified + age > now then Spared
    else if key in failing then Stuck
    else Swept
  }

  lemma JudgedDoomed(entries: Entries, order: seq<Uuid>, i: nat, referenced: set<Uuid>, age: nat, now: Instant, failing: set<Uuid>)
    requires Enumerates(order, entries.Keys) && i < |order|
    ensures Once(order) && order[i] in entries
    ensures var verdict := Judge(entries[order[i]], order[i], referenced, age, now, failing);
      && (verdict.Swept? <==> order[i] in Doomed(entries, referenced, age, now) - failing)
      && (verdict.Stuck? <==> order[i] in Doomed(entries, referenced, age, now) * failing)
  {
    assert order[i] in order && order[i] in entries.Keys;
  }

  /** Removes the doomed files of one directory, counting removals and failures. */
  method Sweep(entries: Entries, order: seq<Uuid>, referenced: set<Uuid>, age: nat, now: Instant, failing: set<Uuid>)
    returns (left: Entries, removed: nat, failures: nat)
    requires Enumerates(order, entries.Keys)
    ensures left == entries - Gone(entries, referenced, age, now, failing)
    ensures removed == |Gone(entries, referenced, age, now, failing)|
    ensures failures == |Doomed(entries, referenced, age, now) * failing|
  {
    left, removed, failures := entries, 0, 0;
    ghost var swept, stuck := Doomed(entries, referenced, age, now) - failing, Doomed(entries, referenced, age, now) * failing;
    for i := 0 to |order|
      invariant left == entries - Visited(order, i, swept)
      invariant removed == |Visited(order, i, swept)| && failures == |Visited(order, i, stuck)|
    {
      var key := order[i];
      JudgedDoomed(entries, order, i, referenced, age, now, failing);
      SweepStep(entries, order, i, swept);
      SweepStep(entries, order, i, stuck);
      var verdict := Judge(entries[key], key, referenced, age, now, failing);
      if verdict.Stuck? {
        failures := failures + 1;
      } else if verdict.Swept? {
        left := left - {key};
        removed := removed + 1;
      }
    }
    VisitedAll(order, entries.Keys, swept);
    VisitedAll(order, entries.Keys, stuck);
  }

  /** The members of a set met in the first `i` entries. */
  ghost function Visited(order: seq<Uuid>, i: nat, keep: set<Uuid>): set<Uuid>
    requires i <= |order|
  {
    set k | k in keep && k in order[..i]
  }

  predicate Once(order: seq<Uuid>) { forall i, j :: 0 <= i < j < |order| ==> order[i] != order[j] }

  lemma VisitedStep(order: seq<Uuid>, i: nat, keep: set<Uuid>)
    requires i < |order| && Once(order)
    ensures order[i] !in Visited(order, i, keep)
    ensures Visited(order, i + 1, keep) == Visited(order, i, keep) + if order[i] in keep then {order[i]} else {}
  {
    assert order[..i + 1] == order[..i] + [order[i]];
  }

  lemma VisitedAll(order: seq<Uuid>, keys: set<Uuid>, keep: set<Uuid>)
    requires Enumerates(order, keys) && keep <= keys
    ensures Visited(order, |order|, keep) == keep
  {
    assert order[..|order|] == order;
  }

  lemma SweepStep(entries: Entries, order: seq<Uuid>, i: nat, keep: set<Uuid>)
    requires i < |order| && Once(order)
    ensures order[i] !in keep ==> Visited(order, i + 1, keep) == Visited(order, i, keep)
    ensures order[i] in keep ==>
      && |Visited(order, i + 1, keep)| == |Visited(order, i, keep)| + 1
      && entries - Visited(order, i + 1, keep) == entries - Visited(order, i, keep) - {order[i]}
  {
    VisitedStep(order, i, keep);
  }

  lemma RemoveAll(entries: Entries, gone: set<Uuid>)
    requires gone <= entries.Keys
    ensures |entries - gone| == |entries| - |gone|
  {
    assert (entries - gone).Keys == entries.Keys - gone;
    assert |entries| == |entries.Keys| && |entries - gone| == |(entries - gone).Keys|;
    assert entries.Keys == (entries.Keys - gone) + gone;
  }

  /** The directories after a cleanup in which the removals in `failing` failed; temporaries have no rows. */
  function Cleaned(rows: map<Uuid, Row>, v: Volume, age: nat, now: Instant, failing: Failing): Volume {
    Volume(v.images - Gone(v.images, StorageKeys(rows), age, now, failing.images),
           v.thumbs - Gone(v.thumbs, rows.Keys, age, now, failing.thumbs),
           v.temps - Gone(v.temps, {}, age, now, failing.temps))
  }

  datatype Failing = Failing(images: set<Uuid>, thumbs: set<Uuid>, temps: set<Uuid>)

  function SafetyAge(requested: int): nat { if requested <= 0 then 24 * 3600 * SECOND else requested }

  /** Removing doomed files takes exactly them from the orphans. */
  lemma OrphansAfter(entries: Entries, referenced: set<Uuid>, removed: set<Uuid>)
    requires forall k :: k in removed ==> k in entries && k !in referenced
    ensures Orphans(entries - removed, referenced) == Orphans(entries, referenced) - removed
    ensures |Orphans(entries - removed, referenced)| == |Orphans(entries, referenced)| - |removed|
  {
    var all := Orphans(entries, referenced);
    assert all == (all - removed) + removed;
  }

  lemma MissingAfter(rows: map<Uuid, Row>, images: Entries, removed: set<Uuid>)
    requires forall k :: k in removed ==> k !in StorageKeys(rows)
    ensures MissingRows(rows, images - removed) == MissingRows(rows, images)
  {
    forall id | id in rows ensures rows[id].key !in removed { assert rows[id].key in StorageKeys(rows); }
  }

  /** The report with the removed files taken out. */
  function Adjusted(r: Inspection, images: int, thumbs: int, temps: int): Inspection {
    r.(imageFiles := r.imageFiles - images, orphanImages := r.orphanImages - images,
       thumbnailFiles := r.thumbnailFiles - thumbs, orphanThumbnails := r.orphanThumbnails - thumbs,
       temporaryFiles := r.temporaryFiles - temps)
  }

  predicate Unreferenced(removed: set<Uuid>, entries: Entries, referenced: set<Uuid>) {
    forall k :: k in removed ==> k in entries && k !in referenced
  }

  lemma DirectoryAfter(entries: Entries, referenced: set<Uuid>, removed: set<Uuid>)
    requires Unreferenced(removed, entries, referenced)
    ensures |entries - removed| == |entries| - |removed|
    ensures |Orphans(entries - removed, referenced)| == |Orphans(entries, referenced)| - |removed|
  {
    OrphansAfter(entries, referenced, removed);
    RemoveAll(entries, removed);
  }

  /** A new inspection after removing unreferenced files reports exactly that. */
  lemma ReportAfter(rows: map<Uuid, Row>, order: seq<Uuid>, v: Volume, images: set<Uuid>, thumbs: set<Uuid>, temps: set<Uuid>)
    requires Unreferenced(images, v.images, StorageKeys(rows)) && Unreferenced(thumbs, v.thumbs, rows.Keys) && temps <= v.temps.Keys
    ensures Reported(rows, order, Volume(v.images - images, v.thumbs - thumbs, v.temps - temps)) ==
            Adjusted(Reported(rows, order, v), |images|, |thumbs|, |temps|)
  {
    DirectoryAfter(v.images, StorageKeys(rows), images);
    DirectoryAfter(v.thumbs, rows.Keys, thumbs);
    MissingAfter(rows, v.images, images);
    RemoveAll(v.temps, temps);
  }

  /** What a cleanup removes from one directory. */
  function Gone(entries: Entries, referenced: set<Uuid>, age: nat, now: Instant, failing: set<Uuid>): (r: set<Uuid>)
    ensures Unreferenced(r, entries, referenced)
  {
    Doomed(entries, referenced, age, now) - failing
  }

  /** A file may be removed: regular, named by nothing, and at least `age` old. */
  predicate Removable(e: Entry, named: bool, age: nat, now: Instant) { e.regular && !named && e.modified + age <= now }

  /** Exactly the removable files are gone, but for failed removals, and the others are as they were. */
  ghost predicate Cleared(before: Entries, after: Entries, named: Uuid -> bool, age: nat, now: Instant, failing: set<Uuid>) {
    && (forall k :: k in after ==> k in before && after[k] == before[k])
    && (forall k :: k in before ==> (k !in after <==> Removable(before[k], named(k), age, now) && k !in failing))
  }

  /** The removable files that are still there. */
  ghost function Left(before: Entries, after: Entries, named: Uuid -> bool, age: nat, now: Instant): set<Uuid> {
    set k | k in before && k in after && Removable(before[k], named(k), age, now)
  }

  lemma GoneIsCleared(entries: Entries, referenced: set<Uuid>, named: Uuid -> bool, age: nat, now: Instant, failing: set<Uuid>)
    requires forall k :: k in referenced <==> named(k)
    ensures var after := entries - Gone(entries, referenced, age, now, failing);
      && Cleared(entries, after, named, age, now, failing)
      && Left(entries, after, named, age, now) == Doomed(entries, referenced, age, now) * failing
  {
  }

  /** The report is adjusted removal by removal; in the end it says what a new inspection would. */
  method CleanVolume(rows: map<Uuid, Row>, v: Volume, l: Listing, now: Instant, age: nat, failing: Failing)
    returns (after: Volume, report: Inspection, failures: nat)
    requires Lists(l, rows, v)
    ensures after == Cleaned(rows, v, age, now, failing)
    ensures report == Reported(rows, l.rows, after)
    ensures failures == |Doomed(v.images, StorageKeys(rows), age, now) * failing.images|
                        + |Doomed(v.thumbs, rows.Keys, age, now) * failing.thumbs|
                        + |Doomed(v.temps, {}, age, now) * failing.temps|
  {
    report := Scan(rows, v, l);
    var images, removedImages, failedImages := Sweep(v.images, l.images, StorageKeys(rows), age, now, failing.images);
    var thumbs, removedThumbs, failedThumbs := Sweep(v.thumbs, l.thumbs, rows.Keys, age, now, failing.thumbs);
    var temps, removedTemps, failedTemps := Sweep(v.temps, l.temps, {}, age, now, failing.temps);
    after, failures := Volume(images, thumbs, temps), failedImages + failedThumbs + failedTemps;
    ReportAfter(rows, l.rows, v, Gone(v.images, StorageKeys(rows), age, now, failing.images),
                Gone(v.thumbs, rows.Keys, age, now, failing.thumbs), Gone(v.temps, {}, age, now, failing.temps));
    report := Adjusted(report, removedImages, removedThumbs, removedTemps);
  }

  /** What a cleanup means: an image file is named by a row's key, a thumbnail by a row's id, a temporary by nothing. */
  ghost predicate ClearedAll(rows: map<Uuid, Row>, before: Volume, after: Volume, age: nat, now: Instant, failing: Failing, failures: nat) {
    && Cleared(before.images, after.images, (id: Uuid) => Named(rows, id), age, now, failing.images)
    && Cleared(before.thumbs, after.thumbs, (id: Uuid) => id in rows, age, now, failing.thumbs)
    && Cleared(before.temps, after.temps, (id: Uuid) => false, age, now, failing.temps)
    && failures == |Left(before.images, after.images, (id: Uuid) => Named(rows, id), age, now)|
                   + |Left(before.thumbs, after.thumbs, (id: Uuid) => id in rows, age, now)|
                   + |Left(before.temps, after.temps, (id: Uuid) => false, age, now)|
  }

  lemma CleanedClears(rows: map<Uuid, Row>, v: Volume, age: nat, now: Instant, failing: Failing)
    ensures ClearedAll(rows, v, Cleaned(rows, v, age, now, failing), age, now, failing,
                       |Doomed(v.images, StorageKeys(rows), age, now) * failing.images|
                       + |Doomed(v.thumbs, rows.Keys, age, now) * failing.thumbs|
                       + |Doomed(v.temps, {}, age, now) * failing.temps|)
  {
    GoneIsCleared(v.images, StorageKeys(rows), (id: Uuid) => Named(rows, id), age, now, failing.images);
    GoneIsCleared(v.thumbs, rows.Keys, (id: Uuid) => id in rows, age, now, failing.thumbs);
    GoneIsCleared(v.temps, {}, (id: Uuid) => false, age, now, failing.temps);
  }

  /** The daily run: a safety age that is not positive means a day. */
  method Daily(rows: map<Uuid, Row>, v: Volume, l: Listing, now: Instant, requestedAge: int, failing: Failing)
    returns (after: Volume, report: Inspection, failures: nat)
    requires Lists(l, rows, v)
    ensures ClearedAll(rows, v, after, if requestedAge > 0 then requestedAge else 86_400_000_000_000, now, failing, failures)
    ensures Reports(report, rows, l.rows, after)
  {
    var age := SafetyAge(requestedAge);
    after, report, failures := CleanVolume(rows, v, l, now, age, failing);
    CleanedClears(rows, v, age, now, failing);
    ReportedReports(rows, l.rows, after);
  }
}
