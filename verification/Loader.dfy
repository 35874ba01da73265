/** The delivery loader (internal/delivery/loader.go): the index a rebuild computes from rows and files. */
module Loader {
  import opened Base
  import opened Delivery
  import AliasPath

  /** The images and image_aliases tables: ids are primary keys, alias paths are unique. */
  datatype Database = Database(rows: map<Uuid, Row>, aliases: map<Path, AliasRow>)

  /** The file of a row is present with exactly the recorded size. */
  predicate Stored(files: map<Uuid, File>, row: Row) {
    row.key in files && files[row.key].size == row.size
  }

  function StorageKeys(rows: map<Uuid, Row>): set<Uuid> { set id | id in rows :: rows[id].key }

  function BuildTargets(rows: map<Uuid, Row>, files: map<Uuid, File>): map<Uuid, Target> {
    map id | id in rows && Stored(files, rows[id]) :: Rebuilt(rows[id])
  }

  /** Root aliases of earlier versions are not served; aliases of missing images are skipped. */
  function BuildAliases(aliases: map<Path, AliasRow>, targets: map<Uuid, Target>): map<Path, Uuid> {
    map p | p in aliases && p != AliasPath.ROOT && aliases[p].image in targets :: aliases[p].image
  }

  function BuildView(db: Database, files: map<Uuid, File>): View {
    var targets := BuildTargets(db.rows, files);
    View(targets, BuildAliases(db.aliases, targets))
  }

  datatype LoadError = InvalidHash(id: Uuid) | InvalidAlias(path: Path) | UnknownImage(path: Path) | DuplicatePath(path: Path)

  datatype LoadResult = LoadResult(
    loaded: seq<Uuid>, missing: seq<Uuid>, invalidSize: seq<Uuid>, loadedAliases: nat, skippedAliases: nat)

  predicate HashesOk(rows: map<Uuid, Row>) {
    forall id :: id in rows ==> |rows[id].hash| == 32
  }

  predicate AliasesOk(db: Database) {
    forall p :: p in db.aliases && p != AliasPath.ROOT ==> AliasPath.Canonical(p) && db.aliases[p].image in db.rows
  }

  /** `order` lists each key of a table once, as ORDER BY does. */
  ghost predicate Enumerates<K(!new)>(order: seq<K>, keys: set<K>) {
    && (forall i, j :: 0 <= i < j < |order| ==> order[i] != order[j])
    && (forall k :: k in keys <==> k in order)
  }

  /** Every table can be listed so. */
  lemma {:induction false} EveryTableHasAnOrder<K(!new)>(keys: set<K>) returns (order: seq<K>)
    ensures Enumerates(order, keys)
    decreases keys
  {
    order := [];
    if keys != {} {
      var k :| k in keys;
      var rest := EveryTableHasAnOrder(keys - {k});
      order := [k] + rest;
      assert Enumerates(rest, keys - {k});
      forall j | 0 <= j < |rest| ensures rest[j] != k { assert rest[j] in rest; }
    }
  }

  function Filter(order: seq<Uuid>, keep: set<Uuid>): seq<Uuid> {
    if order == [] then []
    else
      var n := |order| - 1;
      Filter(order[..n], keep) + if order[n] in keep then [order[n]] else []
  }

  function Missing(rows: map<Uuid, Row>, files: map<Uuid, File>): set<Uuid> {
    set id | id in rows && rows[id].key !in files
  }

  function InvalidSize(rows: map<Uuid, Row>, files: map<Uuid, File>): set<Uuid> {
    set id | id in rows && rows[id].key in files && !Stored(files, rows[id])
  }

  /** The first comes before the second in the listing. */
  predicate Precedes(order: seq<Uuid>, a: Uuid, b: Uuid) {
    exists m, n :: 0 <= m < n < |order| && order[m] == a && order[n] == b
  }

  /** The list names exactly the given ids, in the order of the listing. */
  ghost predicate ListsInOrder(list: seq<Uuid>, order: seq<Uuid>, wanted: Uuid -> bool) {
    && (forall id :: id in list <==> id in order && wanted(id))
    && (forall i, j :: 0 <= i < j < |list| ==> Precedes(order, list[i], list[j]))
  }

  lemma PrecedesLonger(order: seq<Uuid>, n: nat, a: Uuid, b: Uuid)
    requires n <= |order| && Precedes(order[..n], a, b)
    ensures Precedes(order, a, b)
  {
    var i, j :| 0 <= i < j < n && order[..n][i] == a && order[..n][j] == b;
    assert order[i] == a && order[j] == b;
  }

  lemma {:induction false} FilterInOrder(order: seq<Uuid>, keep: set<Uuid>)
    ensures ListsInOrder(Filter(order, keep), order, id => id in keep)
  {
    FilterMembers(order, keep);
    if order != [] {
      var n := |order| - 1;
      var list, shorter := Filter(order, keep), Filter(order[..n], keep);
      FilterInOrder(order[..n], keep);
      FilterMembers(order[..n], keep);
      forall i, j | 0 <= i < j < |list| ensures Precedes(order, list[i], list[j]) {
        if j < |shorter| {
          PrecedesLonger(order, n, shorter[i], shorter[j]);
        } else {
          assert shorter[i] in shorter;
          var m :| 0 <= m < n && order[..n][m] == shorter[i];
          assert order[m] == list[i] && order[n] == list[j];
        }
      }
    }
  }

  lemma FilterStep(order: seq<Uuid>, keep: set<Uuid>, i: nat)
    requires i < |order|
    ensures Filter(order[..i + 1], keep) == Filter(order[..i], keep) + if order[i] in keep then [order[i]] else []
  {
    assert order[..i + 1][..i] == order[..i];
  }

  /** The part of a map already loaded when the first `i` keys have been visited. */
  ghost function Upto<K, V>(m: map<K, V>, order: seq<K>, i: nat): (r: map<K, V>)
    requires i <= |order|
    ensures r.Keys <= m.Keys
  {
    map k | k in m && k in order[..i] :: m[k]
  }

  lemma UptoStep<K, V>(m: map<K, V>, order: seq<K>, i: nat)
    requires i < |order|
    ensures order[i] in m ==> Upto(m, order, i + 1) == Upto(m, order, i)[order[i] := m[order[i]]]
    ensures order[i] !in m ==> Upto(m, order, i + 1) == Upto(m, order, i)
  {
    assert order[..i + 1] == order[..i] + [order[i]];
  }

  lemma UptoAll<K(!new), V>(m: map<K, V>, order: seq<K>, keys: set<K>)
    requires Enumerates(order, keys) && m.Keys <= keys
    ensures Upto(m, order, |order|) == m
  {
    assert order[..|order|] == order;
    forall k | k in m ensures k in order {
      assert k in keys;
    }
  }

  lemma UptoFresh<K(!new), V>(m: map<K, V>, order: seq<K>, keys: set<K>, i: nat)
    requires Enumerates(order, keys) && i < |order|
    ensures order[i] in keys && order[i] !in Upto(m, order, i)
  {
    assert order[i] in order;
  }

  /** One turn of the row loop puts its row in exactly one of the three lists. */
  lemma SortStep(rows: map<Uuid, Row>, order: seq<Uuid>, files: map<Uuid, File>, i: nat)
    requires i < |order| && order[i] in rows
    ensures
      var id, row := order[i], rows[order[i]];
      var all, lost, wrong := BuildTargets(rows, files), Missing(rows, files), InvalidSize(rows, files);
      && Upto(all, order, i + 1) == (if Stored(files, row) then Upto(all, order, i)[id := Rebuilt(row)] else Upto(all, order, i))
      && Filter(order[..i + 1], all.Keys) == Filter(order[..i], all.Keys) + (if Stored(files, row) then [id] else [])
      && Filter(order[..i + 1], lost) == Filter(order[..i], lost) + (if row.key !in files then [id] else [])
      && Filter(order[..i + 1], wrong) == Filter(order[..i], wrong)
           + (if row.key in files && !Stored(files, row) then [id] else [])
  {
    var all, lost, wrong := BuildTargets(rows, files), Missing(rows, files), InvalidSize(rows, files);
    UptoStep(all, order, i);
    FilterStep(order, all.Keys, i);
    FilterStep(order, lost, i);
    FilterStep(order, wrong, i);
  }

  /** The row loop: targets for stored files; missing files and wrong sizes are listed, not fatal. */
  method LoadTargets(rows: map<Uuid, Row>, order: seq<Uuid>, files: map<Uuid, File>)
    returns (r: Result<map<Uuid, Target>, LoadError>, loaded: seq<Uuid>, missing: seq<Uuid>, invalidSize: seq<Uuid>)
    requires Enumerates(order, rows.Keys)
    ensures r.Ok? <==> HashesOk(rows)
    ensures r.Err? ==> r.error.InvalidHash? && r.error.id in rows && |rows[r.error.id].hash| != 32
    ensures r.Ok? ==>
      && r.value == BuildTargets(rows, files)
      && loaded == Filter(order, r.value.Keys)
      && missing == Filter(order, Missing(rows, files)) && invalidSize == Filter(order, InvalidSize(rows, files))
  {
    var targets: map<Uuid, Target> := map[];
    loaded, missing, invalidSize := [], [], [];
    ghost var all, lost, wrong := BuildTargets(rows, files), Missing(rows, files), InvalidSize(rows, files);
    for i := 0 to |order|
      invariant forall j :: 0 <= j < i ==> order[j] in rows && |rows[order[j]].hash| == 32
      invariant targets == Upto(all, order, i)
      invariant loaded == Filter(order[..i], all.Keys)
      invariant missing == Filter(order[..i], lost) && invalidSize == Filter(order[..i], wrong)
    {
      var id := order[i];
      UptoFresh(all, order, rows.Keys, i);
      var row := rows[id];
      if |row.hash| != 32 { return Err(InvalidHash(id)), loaded, missing, invalidSize; }
      SortStep(rows, order, files, i);
      if row.key !in files {
        missing := missing + [id];
      } else if files[row.key].size != row.size {
        invalidSize := invalidSize + [id];
      } else {
        targets := targets[id := Rebuilt(row)];
        loaded := loaded + [id];
      }
    }
    assert order[..|order|] == order;
    UptoAll(all, order, rows.Keys);
    AllVisited(rows, order);
    r := Ok(targets);
  }

  lemma AllVisited(rows: map<Uuid, Row>, order: seq<Uuid>)
    requires Enumerates(order, rows.Keys)
    requires forall j :: 0 <= j < |order| ==> order[j] in rows && |rows[order[j]].hash| == 32
    ensures HashesOk(rows)
  {
    forall id | id in rows ensures |rows[id].hash| == 32 {
      assert id in rows.Keys;
    }
  }

  /** What the alias loop accepts: a root alias, or a canonical path of a known image. */
  predicate LoadableAlias(db: Database, path: Path)
    requires path in db.aliases
  {
    path != AliasPath.ROOT ==> AliasPath.Canonical(path) && db.aliases[path].image in db.rows
  }

  /** The first `i` alias rows are accepted. */
  predicate AcceptedUpto(db: Database, order: seq<Path>, i: nat)
    requires i <= |order|
  {
    i == 0 || (AcceptedUpto(db, order, i - 1) && order[i - 1] in db.aliases && LoadableAlias(db, order[i - 1]))
  }

  lemma {:induction false} AcceptedEach(db: Database, order: seq<Path>, i: nat, j: nat)
    requires j < i <= |order| && AcceptedUpto(db, order, i)
    ensures order[j] in db.aliases && LoadableAlias(db, order[j])
  {
    if j < i - 1 { AcceptedEach(db, order, i - 1, j); }
  }

  lemma AllAliasesVisited(db: Database, order: seq<Path>)
    requires Enumerates(order, db.aliases.Keys)
    requires AcceptedUpto(db, order, |order|)
    ensures AliasesOk(db)
  {
    forall j | 0 <= j < |order| ensures order[j] in db.aliases && LoadableAlias(db, order[j]) {
      AcceptedEach(db, order, |order|, j);
    }
    forall p | p in db.aliases ensures LoadableAlias(db, p) {
      assert p in db.aliases.Keys;
    }
  }

  /** One turn of the alias loop adds its alias, if the reference view has it, and no other. */
  lemma AliasTurn(db: Database, order: seq<Path>, i: nat, targets: map<Uuid, Target>)
    requires Enumerates(order, db.aliases.Keys) && i < |order|
    ensures
      var all := BuildAliases(db.aliases, targets);
      && order[i] in db.aliases && order[i] !in Upto(all, order, i)
      && Upto(all, order, i + 1) ==
           (if order[i] in all then Upto(all, order, i)[order[i] := all[order[i]]] else Upto(all, order, i))
  {
    var all := BuildAliases(db.aliases, targets);
    UptoFresh(all, order, db.aliases.Keys, i);
    UptoStep(all, order, i);
  }

  lemma AliasesLoaded(db: Database, order: seq<Path>, targets: map<Uuid, Target>)
    requires Enumerates(order, db.aliases.Keys)
    ensures Upto(BuildAliases(db.aliases, targets), order, |order|) == BuildAliases(db.aliases, targets)
    ensures |order| == |db.aliases|
  {
    UptoAll(BuildAliases(db.aliases, targets), order, db.aliases.Keys);
    EnumerationSize(order, db.aliases.Keys);
    assert |db.aliases| == |db.aliases.Keys|;
  }

  /** One alias row: the image to serve, if any, or why the load fails. */
  method LoadAlias(db: Database, path: Path, targets: map<Uuid, Target>, unavailable: set<Uuid>)
    returns (r: Result<Option<Uuid>, LoadError>)
    requires path in db.aliases
    requires forall id :: id in db.rows <==> id in targets || id in unavailable
    requires forall id :: id in targets ==> id !in unavailable
    ensures r == if path == ['/' as Byte] then Ok(None)
                 else if AliasPath.NormalizeAliasPath(path) != Ok(path) then Err(InvalidAlias(path))
                 else if db.aliases[path].image !in db.rows then Err(UnknownImage(path))
                 else if db.aliases[path].image in targets then Ok(Some(db.aliases[path].image))
                 else Ok(None)
  {
    if path == AliasPath.ROOT { return Ok(None); }
    var normalized := AliasPath.NormalizeAliasPath(path);
    if normalized.Err? || normalized.value != path { return Err(InvalidAlias(path)); }
    var image := db.aliases[path].image;
    if image in unavailable { return Ok(None); }
    if image !in targets { return Err(UnknownImage(path)); }
    r := Ok(Some(image));
  }

  /** One turn of the alias loop. */
  method TakeAlias(db: Database, path: Path, targets: map<Uuid, Target>, unavailable: set<Uuid>)
    returns (r: Result<Option<Uuid>, LoadError>)
    requires path in db.aliases
    requires forall id :: id in db.rows <==> id in targets || id in unavailable
    requires forall id :: id in targets ==> id !in unavailable
    ensures r.Ok? <==> LoadableAlias(db, path)
    ensures r.Err? ==> r.error.InvalidAlias? || r.error.UnknownImage?
    ensures r.Ok? ==> r.value == Lookup(BuildAliases(db.aliases, targets), path)
  {
    r := LoadAlias(db, path, targets, unavailable);
  }

  /** The alias loop: root aliases and aliases of unavailable images are skipped, broken ones are fatal. */
  method LoadAliases(db: Database, order: seq<Path>, targets: map<Uuid, Target>, unavailable: set<Uuid>)
    returns (r: Result<map<Path, Uuid>, LoadError>, loaded: nat, skipped: nat)
    requires Enumerates(order, db.aliases.Keys)
    requires forall id :: id in db.rows <==> id in targets || id in unavailable
    requires forall id :: id in targets ==> id !in unavailable
    ensures r.Ok? <==> AliasesOk(db)
    ensures r.Err? ==> r.error.InvalidAlias? || r.error.UnknownImage?
    ensures r.Ok? ==> r.value == BuildAliases(db.aliases, targets)
    ensures r.Ok? ==> loaded == |r.value| && loaded + skipped == |db.aliases|
  {
    var aliases: map<Path, Uuid> := map[];
    loaded, skipped := 0, 0;
    ghost var all := BuildAliases(db.aliases, targets);
    for i := 0 to |order|
      invariant AcceptedUpto(db, order, i)
      invariant aliases == Upto(all, order, i)
      invariant loaded == |aliases| && loaded + skipped == i
    {
      var path := order[i];
      AliasTurn(db, order, i, targets);
      var image := TakeAlias(db, path, targets, unavailable);
      if image.Err? { return Err(image.error), loaded, skipped; }
      if image.value.None? {
        skipped := skipped + 1;
        continue;
      }
      if path in aliases { return Err(DuplicatePath(path)), loaded, skipped; }
      aliases := aliases[path := image.value.value];
      loaded := loaded + 1;
    }
    AliasesLoaded(db, order, targets);
    AllAliasesVisited(db, order);
    r := Ok(aliases);
  }

  lemma {:induction false} EnumerationSize<K(!new)>(order: seq<K>, keys: set<K>)
    requires Enumerates(order, keys)
    ensures |order| == |keys|
  {
    if order == [] {
      assert keys == {};
    } else {
      var n := |order| - 1;
      forall k ensures k in keys - {order[n]} <==> k in order[..n] {
        if k in order[..n] { assert k in order; }
        if k in order && k != order[n] { assert k in order[..n]; }
      }
      EnumerationSize(order[..n], keys - {order[n]});
      assert order[n] in keys;
    }
  }

  /** The row loop sorts the rows into served, missing and wrong in size, each row once. */
  lemma EveryRowOnce(rows: map<Uuid, Row>, order: seq<Uuid>, files: map<Uuid, File>)
    requires Enumerates(order, rows.Keys)
    ensures
      var targets := BuildTargets(rows, files);
      var missing, wrong := Filter(order, Missing(rows, files)), Filter(order, InvalidSize(rows, files));
      && (forall id :: id in rows <==> id in targets || id in missing || id in wrong)
      && (forall id :: id in targets ==> id !in missing && id !in wrong)
      && (forall id :: id in missing ==> id !in wrong)
  {
    FilterMembers(order, Missing(rows, files));
    FilterMembers(order, InvalidSize(rows, files));
    assert forall id :: id in rows ==> id in rows.Keys;
  }

  /** Build succeeds exactly on sound tables, and then returns BuildView and an exact account of them. */
  method Build(db: Database, rowOrder: seq<Uuid>, aliasOrder: seq<Path>, files: map<Uuid, File>)
    returns (r: Result<(View, LoadResult), LoadError>)
    requires Enumerates(rowOrder, db.rows.Keys) && Enumerates(aliasOrder, db.aliases.Keys)
    ensures r.Ok? <==> HashesOk(db.rows) && AliasesOk(db)
    ensures r.Ok? ==> r.value.0 == BuildView(db, files) && Serves(r.value.0, db, files)
    ensures r.Ok? ==> Accounts(r.value.1, r.value.0, db, rowOrder, files)
  {
    var targets, loaded, missing, invalidSize := LoadTargets(db.rows, rowOrder, files);
    if targets.Err? { return Err(targets.error); }
    EveryRowOnce(db.rows, rowOrder, files);
    var unavailable := (set id | id in missing) + (set id | id in invalidSize);
    var aliases, shown, skipped := LoadAliases(db, aliasOrder, targets.value, unavailable);
    if aliases.Err? { return Err(aliases.error); }
    BuildViewServes(db, files);
    AccountsFor(db, rowOrder, files);
    r := Ok((View(targets.value, aliases.value), LoadResult(loaded, missing, invalidSize, shown, skipped)));
  }

  /**
   A row with its file in full is served as it says, at its last change or else its creation; a
   path is served when it is no root path and its image is.
   */
  ghost predicate Serves(v: View, db: Database, files: map<Uuid, File>) {
    && (forall id :: id in v.byID <==>
          id in db.rows && db.rows[id].key in files && files[db.rows[id].key].size == db.rows[id].size)
    && (forall id :: id in v.byID ==>
          && v.byID[id].key == db.rows[id].key && v.byID[id].mime == db.rows[id].mime && v.byID[id].etag == db.rows[id].hash
          && v.byID[id].size == db.rows[id].size && v.byID[id].visibility == db.rows[id].visibility
          && v.byID[id].name == db.rows[id].name
          && v.byID[id].lastModified ==
               1_000_000_000 * if db.rows[id].updated > 0 then db.rows[id].updated else db.rows[id].created)
    && (forall p :: p in v.aliases <==> p in db.aliases && p != ['/' as Byte] && db.aliases[p].image in v.byID)
    && (forall p :: p in v.aliases ==> v.aliases[p] == db.aliases[p].image)
  }

  lemma BuildViewServes(db: Database, files: map<Uuid, File>)
    ensures Serves(BuildView(db, files), db, files)
  {
  }

  lemma AccountsFor(db: Database, rowOrder: seq<Uuid>, files: map<Uuid, File>)
    requires Enumerates(rowOrder, db.rows.Keys)
    ensures ListsInOrder(Filter(rowOrder, BuildTargets(db.rows, files).Keys), rowOrder, id => id in BuildTargets(db.rows, files))
    ensures ListsInOrder(Filter(rowOrder, Missing(db.rows, files)), rowOrder,
                         id => id in db.rows && db.rows[id].key !in files)
    ensures ListsInOrder(Filter(rowOrder, InvalidSize(db.rows, files)), rowOrder,
                         id => id in db.rows && db.rows[id].key in files && files[db.rows[id].key].size != db.rows[id].size)
  {
    FilterInOrder(rowOrder, BuildTargets(db.rows, files).Keys);
    FilterInOrder(rowOrder, Missing(db.rows, files));
    FilterInOrder(rowOrder, InvalidSize(db.rows, files));
  }

  /** The counts and id lists a load reports, in row order. */
  ghost predicate Accounts(account: LoadResult, view: View, db: Database, rowOrder: seq<Uuid>, files: map<Uuid, File>) {
    && ListsInOrder(account.loaded, rowOrder, id => id in view.byID)
    && ListsInOrder(account.missing, rowOrder, id => id in db.rows && db.rows[id].key !in files)
    && ListsInOrder(account.invalidSize, rowOrder,
                    id => id in db.rows && db.rows[id].key in files && files[db.rows[id].key].size != db.rows[id].size)
    && account.loadedAliases == |view.aliases|
    && account.loadedAliases + account.skippedAliases == |db.aliases|
  }

  lemma {:induction false} FilterMembers(order: seq<Uuid>, keep: set<Uuid>)
    ensures forall id :: id in Filter(order, keep) <==> id in order && id in keep
  {
    if order != [] {
      var n := |order| - 1;
      FilterMembers(order[..n], keep);
      assert order == order[..n] + [order[n]];
    }
  }
}
